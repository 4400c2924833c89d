/** Delayed completion of URBs in the Windows virtual USB driver (windrv/vds_usb/vds_usb.c). An endpoint
    queue holds at most one timer; arming it, starting it, its callback, and a purge of the queue run
    concurrently. A step is one lock region or one call; a completion is three calls in a row. */
module WinDelayedUrb {
  import opened VdsTypes

  const FRAME_MAX_PAYLOAD: nat := 4096

  datatype Endpoint = AudioOut | AudioIn | HidIn | Other(address: u8)
  datatype Queue = Queue(port: nat, endpoint: Endpoint)

  /** A request to complete later, with the timer created for it. */
  type RequestId = nat

  /** Who completes the request: nobody yet, its timer's callback, a purge that stopped the timer in
      time, or the caller that could not arm it. */
  datatype Runner = Nobody | Callback | Flush | Caller

  datatype Stage = Waiting | AtSlot | AtFrame | AtComplete | AtDelete | Done

  datatype Timer = Timer(
    queue: Queue,
    frame: seq<u8>,
    created: bool,
    started: bool,
    inTimerQueue: bool,
    runner: Runner,
    stage: Stage)

  datatype Event = Framed(id: RequestId) | Completed(id: RequestId) | Deleted(id: RequestId)

  /** `slots` are the queues whose delayed_timer is set; `flushing` the timers a purge took out of its
      slot and has not tried to stop yet. `log` is history. */
  datatype DelayState = DelayState(
    slots: map<Queue, RequestId>,
    timers: map<RequestId, Timer>,
    flushing: set<RequestId>,
    nextId: RequestId,
    audioOutPending: int,
    audioInPending: int,
    hidInPending: int,
    log: seq<Event>)

  const EMPTY := DelayState(map[], map[], {}, 0, 0, 0, 0, [])

  function AdjustPending(s: DelayState, endpoint: Endpoint, delta: int): (r: DelayState)
    ensures r == s.(audioOutPending := r.audioOutPending, audioInPending := r.audioInPending, hidInPending := r.hidInPending)
  {
    match endpoint
    case AudioOut => s.(audioOutPending := s.audioOutPending + delta)
    case AudioIn => s.(audioInPending := s.audioInPending + delta)
    case HidIn => s.(hidInPending := s.hidInPending + delta)
    case Other(_) => s
  }

  /** Ask for a delayed completion. Refused when the frame is too long, the timer cannot be created, or
      the slot is taken; the caller then completes the request itself. */
  function Arm(s: DelayState, queue: Queue, frame: seq<u8>, canCreate: bool): DelayState {
    var id := s.nextId;
    var created := |frame| <= FRAME_MAX_PAYLOAD && canCreate;
    var next := s.(nextId := id + 1);
    if created && queue !in s.slots then
      AdjustPending(next, queue.endpoint, 1)
      .(slots := s.slots[queue := id],
        timers := s.timers[id := Timer(queue, frame, true, false, false, Nobody, Waiting)])
    else
      next.(timers := s.timers[id := Timer(queue, frame, created, false, false, Caller, AtFrame)],
            log := if created then s.log + [Deleted(id)] else s.log)
  }

  function StartTimer(s: DelayState, id: RequestId): DelayState {
    if id !in s.timers || s.timers[id].started || s.timers[id].runner != Nobody then s
    else s.(timers := s.timers[id := s.timers[id].(started := true, inTimerQueue := true)])
  }

  /** The timer expires: its callback begins. */
  function Fire(s: DelayState, id: RequestId): DelayState {
    if id !in s.timers || !s.timers[id].inTimerQueue then s
    else s.(timers := s.timers[id := s.timers[id].(inTimerQueue := false, runner := Callback, stage := AtSlot)])
  }

  /** The callback's lock region: empty the slot, but only if it still holds this timer. */
  function ClearSlot(s: DelayState, id: RequestId): DelayState {
    if id !in s.timers || s.timers[id].stage != AtSlot then s
    else
      var queue := s.timers[id].queue;
      var moved := s.(timers := s.timers[id := s.timers[id].(stage := AtFrame)]);
      if queue in s.slots && s.slots[queue] == id then
        AdjustPending(moved, queue.endpoint, -1).(slots := s.slots - {queue})
      else moved
  }

  /** A purge's lock region: take the timer out of the slot. */
  function Take(s: DelayState, queue: Queue): DelayState {
    if queue !in s.slots then s
    else AdjustPending(s, queue.endpoint, -1).(slots := s.slots - {queue}, flushing := s.flushing + {s.slots[queue]})
  }

  /** The purge stops the timer. That succeeds only if the timer was waiting to expire; one that was not
      started yet is left to the thread that is about to start it, a running callback is waited for. */
  function StopTimer(s: DelayState, id: RequestId): DelayState {
    if id !in s.flushing || id !in s.timers then s
    else
      var t := s.timers[id];
      if t.inTimerQueue then
        s.(flushing := s.flushing - {id},
           timers := s.timers[id := t.(inTimerQueue := false, runner := Flush, stage := AtFrame)])
      else if t.runner == Callback && t.stage != Done then s
      else s.(flushing := s.flushing - {id})
  }

  /** The next call of whoever completes the request: queue its frame, complete it, delete the timer. */
  function Advance(s: DelayState, id: RequestId): DelayState {
    if id !in s.timers then s
    else
      var t := s.timers[id];
      match t.stage
      case AtFrame =>
        s.(timers := s.timers[id := t.(stage := AtComplete)],
           log := if t.frame != [] then s.log + [Framed(id)] else s.log)
      case AtComplete =>
        s.(timers := s.timers[id := t.(stage := if t.runner == Caller then Done else AtDelete)],
           log := s.log + [Completed(id)])
      case AtDelete =>
        s.(timers := s.timers[id := t.(stage := Done)], log := s.log + [Deleted(id)])
      case _ => s
  }

  datatype Step =
    | DoArm(queue: Queue, frame: seq<u8>, canCreate: bool)
    | DoStart(id: RequestId)
    | DoFire(id: RequestId)
    | DoClearSlot(id: RequestId)
    | DoTake(queue: Queue)
    | DoStop(id: RequestId)
    | DoAdvance(id: RequestId)

  function Next(s: DelayState, step: Step): DelayState {
    match step
    case DoArm(queue, frame, canCreate) => Arm(s, queue, frame, canCreate)
    case DoStart(id) => StartTimer(s, id)
    case DoFire(id) => Fire(s, id)
    case DoClearSlot(id) => ClearSlot(s, id)
    case DoTake(queue) => Take(s, queue)
    case DoStop(id) => StopTimer(s, id)
    case DoAdvance(id) => Advance(s, id)
  }

  function Run(steps: seq<Step>): DelayState {
    if steps == [] then EMPTY else Next(Run(steps[..|steps| - 1]), steps[|steps| - 1])
  }

  // ---------------------------------------------------------------------------------------------
  // Invariants
  // ---------------------------------------------------------------------------------------------

  /** What can be said of a timer on its own. A request nobody runs is never stranded: its timer is
      about to be started or waiting to expire. */
  ghost predicate Sound(t: Timer) {
    && (t.stage == Waiting <==> t.runner == Nobody)
    && (t.stage == AtSlot ==> t.runner == Callback)
    && (t.inTimerQueue <==> t.started && t.runner == Nobody)
    && (t.runner == Caller ==> t.stage != AtDelete && !t.started)
    && (t.runner != Caller ==> t.created)
  }

  ghost predicate AllSound(s: DelayState) {
    && (forall id: RequestId :: id in s.timers <==> id < s.nextId)
    && (forall id :: id in s.timers ==> Sound(s.timers[id]))
  }

  /** A slot holds a timer of its own queue that no completion has reached, and no purge has taken. */
  ghost predicate Slotted(s: DelayState) {
    && (forall q :: q in s.slots ==>
          && s.slots[q] in s.timers && s.timers[s.slots[q]].queue == q
          && (s.timers[s.slots[q]].stage == Waiting || s.timers[s.slots[q]].stage == AtSlot))
    && (forall id :: id in s.flushing ==> id in s.timers && s.timers[id].runner != Caller)
    && (forall q :: q in s.slots ==> s.slots[q] !in s.flushing)
  }

  function Tally(b: bool): nat {
    if b then 1 else 0
  }

  /** What of a request's completion has happened is what its stage says, once each. */
  ghost predicate LoggedAt(log: multiset<Event>, id: RequestId, t: Timer) {
    && log[Framed(id)] == Tally(t.frame != [] && (t.stage == AtComplete || t.stage == AtDelete || t.stage == Done))
    && log[Completed(id)] == Tally(t.stage == AtDelete || t.stage == Done)
    && log[Deleted(id)] == Tally(if t.runner == Caller then t.created else t.stage == Done)
  }

  ghost predicate Logged(s: DelayState) {
    && (forall id :: id in s.timers ==> LoggedAt(multiset(s.log), id, s.timers[id]))
    && (forall e :: e in multiset(s.log) ==> e.id in s.timers)
  }

  /** A frame goes out before its request is completed, and a timer that ran is deleted after that. */
  ghost predicate InOrderAt(timers: map<RequestId, Timer>, before: seq<Event>, e: Event) {
    && e.id in timers
    && (e.Completed? && timers[e.id].frame != [] ==> Framed(e.id) in before)
    && (e.Deleted? && timers[e.id].runner != Caller ==> Completed(e.id) in before)
  }

  ghost predicate InOrder(s: DelayState) {
    forall i :: 0 <= i < |s.log| ==> InOrderAt(s.timers, s.log[..i], s.log[i])
  }

  function Occupied(slots: map<Queue, RequestId>, endpoint: Endpoint): set<Queue> {
    set q | q in slots && q.endpoint == endpoint
  }

  ghost predicate Counted(s: DelayState) {
    && s.audioOutPending == |Occupied(s.slots, AudioOut)|
    && s.audioInPending == |Occupied(s.slots, AudioIn)|
    && s.hidInPending == |Occupied(s.slots, HidIn)|
  }

  ghost predicate Inv(s: DelayState) {
    AllSound(s) && Slotted(s) && Logged(s) && InOrder(s) && Counted(s)
  }

  lemma OccupyOne(slots: map<Queue, RequestId>, queue: Queue, id: RequestId, endpoint: Endpoint)
    requires queue !in slots
    ensures |Occupied(slots[queue := id], endpoint)|
         == |Occupied(slots, endpoint)| + Tally(queue.endpoint == endpoint)
  {
    var more := Occupied(slots[queue := id], endpoint);
    if queue.endpoint == endpoint {
      assert more == Occupied(slots, endpoint) + {queue};
    } else {
      assert more == Occupied(slots, endpoint);
    }
  }

  lemma VacateOne(slots: map<Queue, RequestId>, queue: Queue, endpoint: Endpoint)
    requires queue in slots
    ensures |Occupied(slots - {queue}, endpoint)|
         == |Occupied(slots, endpoint)| - Tally(queue.endpoint == endpoint)
  {
    var rest := slots - {queue};
    assert rest[queue := slots[queue]] == slots;
    OccupyOne(rest, queue, slots[queue], endpoint);
  }

  lemma NextKeepsCounted(s: DelayState, step: Step)
    requires Counted(s)
    ensures Counted(Next(s, step))
  {
    hide Occupied;
    match step
    case DoArm(queue, frame, canCreate) =>
      if queue !in s.slots {
        OccupyOne(s.slots, queue, s.nextId, AudioOut);
        OccupyOne(s.slots, queue, s.nextId, AudioIn);
        OccupyOne(s.slots, queue, s.nextId, HidIn);
      }
    case DoTake(queue) =>
      if queue in s.slots {
        VacateOne(s.slots, queue, AudioOut);
        VacateOne(s.slots, queue, AudioIn);
        VacateOne(s.slots, queue, HidIn);
      }
    case DoClearSlot(id) =>
      if id in s.timers && s.timers[id].queue in s.slots {
        var queue := s.timers[id].queue;
        VacateOne(s.slots, queue, AudioOut);
        VacateOne(s.slots, queue, AudioIn);
        VacateOne(s.slots, queue, HidIn);
      }
    case _ =>
  }

  lemma NextKeepsSound(s: DelayState, step: Step)
    requires AllSound(s)
    ensures AllSound(Next(s, step))
  {
    hide AdjustPending;
  }

  lemma NextKeepsSlotted(s: DelayState, step: Step)
    requires AllSound(s) && Slotted(s)
    ensures Slotted(Next(s, step))
  {
    hide AllSound, Slotted, Arm, StartTimer, Fire, ClearSlot, Take, StopTimer, Advance;
    match step
    case DoArm(queue, frame, canCreate) => ArmSlotted(s, queue, frame, canCreate);
    case DoStart(id) => StartSlotted(s, id);
    case DoFire(id) => FireSlotted(s, id);
    case DoClearSlot(id) => ClearSlotted(s, id);
    case DoTake(queue) => TakeSlotted(s, queue);
    case DoStop(id) => StopSlotted(s, id);
    case DoAdvance(id) => AdvanceSlotted(s, id);
  }

  lemma ArmSlotted(s: DelayState, queue: Queue, frame: seq<u8>, canCreate: bool)
    requires AllSound(s) && Slotted(s)
    ensures Slotted(Arm(s, queue, frame, canCreate))
  {
  }

  lemma StartSlotted(s: DelayState, id: RequestId)
    requires AllSound(s) && Slotted(s)
    ensures Slotted(StartTimer(s, id))
  {
  }

  lemma FireSlotted(s: DelayState, id: RequestId)
    requires AllSound(s) && Slotted(s)
    ensures Slotted(Fire(s, id))
  {
  }

  lemma ClearSlotted(s: DelayState, id: RequestId)
    requires AllSound(s) && Slotted(s)
    ensures Slotted(ClearSlot(s, id))
  {
  }

  lemma TakeSlotted(s: DelayState, queue: Queue)
    requires AllSound(s) && Slotted(s)
    ensures Slotted(Take(s, queue))
  {
  }

  lemma StopSlotted(s: DelayState, id: RequestId)
    requires AllSound(s) && Slotted(s)
    ensures Slotted(StopTimer(s, id))
  {
  }

  lemma AdvanceSlotted(s: DelayState, id: RequestId)
    requires AllSound(s) && Slotted(s)
    ensures Slotted(Advance(s, id))
  {
  }

  /** The request a step works on, and the event it adds to the log. */
  function Subject(s: DelayState, step: Step): RequestId {
    match step
    case DoArm(_, _, _) => s.nextId
    case DoTake(_) => s.nextId
    case _ => step.id
  }

  function Added(s: DelayState, step: Step): seq<Event> {
    match step
    case DoArm(queue, frame, canCreate) =>
      if |frame| <= FRAME_MAX_PAYLOAD && canCreate && queue in s.slots then [Deleted(s.nextId)] else []
    case DoAdvance(id) =>
      if id !in s.timers then []
      else if s.timers[id].stage == AtFrame then if s.timers[id].frame != [] then [Framed(id)] else []
      else if s.timers[id].stage == AtComplete then [Completed(id)]
      else if s.timers[id].stage == AtDelete then [Deleted(id)]
      else []
    case _ => []
  }

  lemma LogEffect(s: DelayState, step: Step)
    ensures Next(s, step).log == s.log + Added(s, step)
    ensures Added(s, step) != [] ==> |Added(s, step)| == 1 && Added(s, step)[0].id == Subject(s, step)
    ensures Added(s, step) != [] ==> Subject(s, step) in Next(s, step).timers
  {
    hide AdjustPending;
  }

  lemma TimersEffect(s: DelayState, step: Step, id: RequestId)
    requires AllSound(s)
    ensures var t := Next(s, step);
            && (id in s.timers ==>
                  && id in t.timers && t.timers[id].frame == s.timers[id].frame
                  && (s.timers[id].runner == Caller ==> t.timers[id].runner == Caller)
                  && (id != Subject(s, step) ==> t.timers[id] == s.timers[id]))
            && (id in t.timers ==> id in s.timers || id == Subject(s, step) == s.nextId)
  {
    hide AdjustPending;
  }

  lemma NextKeepsLoggedAt(s: DelayState, step: Step, id: RequestId)
    requires AllSound(s) && Logged(s) && id in Next(s, step).timers
    ensures LoggedAt(multiset(Next(s, step).log), id, Next(s, step).timers[id])
  {
    LogEffect(s, step);
    SubjectLogged(s, step);
    TimersEffect(s, step, id);
    hide Next, LoggedAt, Added, Subject, AllSound;
    assert multiset(s.log + Added(s, step)) == multiset(s.log) + multiset(Added(s, step));
    if id != Subject(s, step) {
      OthersLogged(multiset(s.log), Added(s, step), id, s.timers[id]);
    }
  }

  lemma NextKeepsLogged(s: DelayState, step: Step)
    requires AllSound(s) && Logged(s)
    ensures Logged(Next(s, step))
  {
    var t := Next(s, step);
    LogEffect(s, step);
    hide Next, LoggedAt, Added, Subject, AllSound;
    forall id | id in t.timers
      ensures LoggedAt(multiset(t.log), id, t.timers[id])
    {
      NextKeepsLoggedAt(s, step, id);
    }
    forall e | e in multiset(t.log)
      ensures e.id in t.timers
    {
      assert e in multiset(s.log) || e in multiset(Added(s, step));
      TimersEffect(s, step, e.id);
    }
  }

  lemma OthersLogged(log: multiset<Event>, added: seq<Event>, id: RequestId, t: Timer)
    requires LoggedAt(log, id, t) && |added| <= 1 && (added != [] ==> added[0].id != id)
    ensures LoggedAt(log + multiset(added), id, t)
  {
    assert forall e :: e in multiset(added) ==> e == added[0];
  }

  /** A completion's next call logs one event and moves the stage past it. */
  lemma AdvanceLogged(s: DelayState, id: RequestId, log: multiset<Event>)
    requires id in s.timers && Sound(s.timers[id]) && LoggedAt(log, id, s.timers[id])
    ensures LoggedAt(log + multiset(Added(s, DoAdvance(id))), id, Advance(s, id).timers[id])
  {
    match s.timers[id].stage
    case AtFrame =>
    case AtComplete =>
    case AtDelete =>
    case _ =>
  }

  lemma ArmLogged(s: DelayState, step: Step, log: multiset<Event>)
    requires step.DoArm? && forall e :: e in log ==> e.id != s.nextId
    ensures LoggedAt(log + multiset(Added(s, step)), s.nextId, Next(s, step).timers[s.nextId])
  {
    hide AdjustPending;
    var id := s.nextId;
    assert Framed(id) !in log && Completed(id) !in log && Deleted(id) !in log;
  }

  /** The other steps leave the stage where nothing of the completion has happened yet. */
  lemma QuietLogged(s: DelayState, step: Step, id: RequestId, log: multiset<Event>)
    requires !step.DoArm? && !step.DoAdvance? && id in s.timers && Sound(s.timers[id])
    requires LoggedAt(log, id, s.timers[id])
    ensures LoggedAt(log, id, Next(s, step).timers[id])
  {
    hide AdjustPending;
  }

  lemma SubjectLogged(s: DelayState, step: Step)
    requires AllSound(s) && Logged(s)
    ensures var t, id := Next(s, step), Subject(s, step);
            id in t.timers ==> LoggedAt(multiset(s.log) + multiset(Added(s, step)), id, t.timers[id])
  {
    var id, log := Subject(s, step), multiset(s.log);
    assert id in s.timers ==> Sound(s.timers[id]) && LoggedAt(log, id, s.timers[id]);
    assert id == s.nextId ==> id !in s.timers;
    TimersEffect(s, step, id);
    hide LoggedAt, Sound, Next, AllSound;
    if step.DoArm? {
      ArmLogged(s, step, log);
    } else if id in s.timers {
      if step.DoAdvance? {
        AdvanceLogged(s, id, log);
        NextIsAdvance(s, step);
      } else {
        QuietLogged(s, step, id, log);
        assert Added(s, step) == [];
        assert log + multiset([]) == log;
      }
    }
  }

  lemma NextIsAdvance(s: DelayState, step: Step)
    requires step.DoAdvance?
    ensures Next(s, step) == Advance(s, step.id)
  {
  }

  lemma NextKeepsInOrder(s: DelayState, step: Step)
    requires AllSound(s) && Logged(s) && InOrder(s)
    ensures InOrder(Next(s, step))
  {
    var t := Next(s, step);
    LogEffect(s, step);
    AddedInOrder(s, step);
    hide Next, AllSound, Logged, Added;
    forall i | 0 <= i < |t.log|
      ensures InOrderAt(t.timers, t.log[..i], t.log[i])
    {
      if i < |s.log| {
        assert t.log[..i] == s.log[..i] && t.log[i] == s.log[i];
        assert InOrderAt(s.timers, s.log[..i], s.log[i]);
        TimersEffect(s, step, s.log[i].id);
      } else {
        assert t.log[..i] == s.log && t.log[i] == Added(s, step)[0];
      }
    }
  }

  lemma AddedInOrder(s: DelayState, step: Step)
    requires AllSound(s) && Logged(s)
    ensures Added(s, step) != [] ==> InOrderAt(Next(s, step).timers, s.log, Added(s, step)[0])
  {
    hide AdjustPending;
    if step.DoAdvance? && step.id in s.timers {
      var e := if s.timers[step.id].stage == AtDelete then Completed(step.id) else Framed(step.id);
      assert LoggedAt(multiset(s.log), step.id, s.timers[step.id]);
      assert e in multiset(s.log) <==> e in s.log;
    }
  }

  lemma {:induction false} RunInv(steps: seq<Step>)
    ensures Inv(Run(steps))
  {
    if steps != [] {
      var s := Run(steps[..|steps| - 1]);
      var step := steps[|steps| - 1];
      RunInv(steps[..|steps| - 1]);
      hide Next;
      NextKeepsSound(s, step);
      NextKeepsSlotted(s, step);
      NextKeepsLogged(s, step);
      NextKeepsInOrder(s, step);
      NextKeepsCounted(s, step);
    } else {
      EmptyInv();
    }
  }

  lemma EmptyInv()
    ensures Inv(EMPTY)
  {
  }

  // ---------------------------------------------------------------------------------------------
  // What every interleaving guarantees
  // ---------------------------------------------------------------------------------------------

  /** At most once, in every reachable state: no request is completed twice, no frame goes out twice, no
      timer is deleted twice; the frame precedes the completion and the completion the deletion. */
  lemma AtMostOnceInOrder(steps: seq<Step>, id: RequestId)
    ensures var log := Run(steps).log;
            && multiset(log)[Framed(id)] <= 1 && multiset(log)[Completed(id)] <= 1 && multiset(log)[Deleted(id)] <= 1
    ensures InOrder(Run(steps))
  {
    RunInv(steps);
    var s := Run(steps);
    if id in s.timers {
      assert LoggedAt(multiset(s.log), id, s.timers[id]);
    } else {
      assert Framed(id) !in multiset(s.log) && Completed(id) !in multiset(s.log) && Deleted(id) !in multiset(s.log);
    }
  }

  /** Exactly once: a request whose completion is over was completed, its non-empty frame was queued
      and its timer deleted, each exactly once. */
  lemma ExactlyOnceWhenDone(steps: seq<Step>, id: RequestId)
    requires id in Run(steps).timers && Run(steps).timers[id].stage == Done
    ensures var s := Run(steps);
            && multiset(s.log)[Completed(id)] == 1
            && multiset(s.log)[Framed(id)] == Tally(s.timers[id].frame != [])
            && multiset(s.log)[Deleted(id)] == Tally(s.timers[id].created)
  {
    RunInv(steps);
    assert LoggedAt(multiset(Run(steps).log), id, Run(steps).timers[id]);
  }

  /** A request is delayed if and only if its frame is no longer than 4096 bytes, a timer could be created
      and its queue has none; otherwise its caller completes it. No other request or queue notices. */
  lemma DelayedExactly(steps: seq<Step>, queue: Queue, frame: seq<u8>, canCreate: bool)
    ensures var s, t, id := Run(steps), Next(Run(steps), DoArm(queue, frame, canCreate)), Run(steps).nextId;
            var delayed := |frame| <= 4096 && canCreate && queue !in s.slots;
            && id !in s.timers && id in t.timers && t.nextId == id + 1 && t.flushing == s.flushing
            && t.timers == s.timers[id := t.timers[id]] && t.timers[id].queue == queue && t.timers[id].frame == frame
            && t.timers[id].runner == (if delayed then Nobody else Caller) && !t.timers[id].started
            && t.slots == (if delayed then s.slots[queue := id] else s.slots)
  {
    RunInv(steps);
    hide Run;
    ArmIs(Run(steps), queue, frame, canCreate);
  }

  lemma ArmIs(s: DelayState, queue: Queue, frame: seq<u8>, canCreate: bool)
    requires AllSound(s)
    ensures var t, id := Arm(s, queue, frame, canCreate), s.nextId;
            var delayed := |frame| <= 4096 && canCreate && queue !in s.slots;
            && id !in s.timers && id in t.timers && t.nextId == id + 1 && t.flushing == s.flushing
            && t.timers == s.timers[id := t.timers[id]] && t.timers[id].queue == queue && t.timers[id].frame == frame
            && t.timers[id].runner == (if delayed then Nobody else Caller) && !t.timers[id].started
            && t.slots == (if delayed then s.slots[queue := id] else s.slots)
  {
    hide AdjustPending;
  }

  /** Who completes a delayed request is settled by one step: its timer expires, or a purge that took it
      stops the timer first. Its queue is free again once the callback or the purge has emptied the slot. */
  lemma SettledExactly(s: DelayState, step: Step, id: RequestId)
    requires id in s.timers && AllSound(s)
    ensures var t := Next(s, step);
            var c := s.timers[id];
            && id in t.timers && t.timers[id].queue == c.queue && t.timers[id].frame == c.frame
            && t.timers[id].runner == (if c.inTimerQueue && step == DoFire(id) then Callback
                                       else if c.inTimerQueue && step == DoStop(id) && id in s.flushing then Flush
                                       else c.runner)
            && t.timers[id].started == (c.started || (step == DoStart(id) && c.runner == Nobody))
  {
    hide AdjustPending;
  }

  lemma FreedExactly(s: DelayState, step: Step, queue: Queue)
    requires queue in s.slots
    ensures var t := Next(s, step);
            var id := s.slots[queue];
            && (queue in t.slots ==> t.slots[queue] == id)
            && (queue !in t.slots <==> step == DoTake(queue)
                                       || (step == DoClearSlot(id) && id in s.timers && s.timers[id].stage == AtSlot && s.timers[id].queue == queue))
            && (step == DoTake(queue) ==> t.flushing == s.flushing + {id})
  {
    hide AdjustPending;
    match step
    case DoClearSlot(i) => hide Arm, StartTimer, Fire, Take, StopTimer, Advance;
    case DoArm(_, _, _) => hide ClearSlot, StartTimer, Fire, Take, StopTimer, Advance;
    case DoTake(_) => hide ClearSlot, StartTimer, Fire, Arm, StopTimer, Advance;
    case _ =>
  }

  /** Nothing of a delayed request happens before that. */
  lemma NotBeforeExpiry(steps: seq<Step>, id: RequestId)
    requires id in Run(steps).timers && Run(steps).timers[id].runner == Nobody
    ensures var log := Run(steps).log;
            Framed(id) !in log && Completed(id) !in log && Deleted(id) !in log
  {
    RunInv(steps);
    var s := Run(steps);
    hide Run;
    assert LoggedAt(multiset(s.log), id, s.timers[id]) && Sound(s.timers[id]);
    assert forall e :: e in s.log <==> multiset(s.log)[e] > 0;
  }

  /** How many steps a request's own completion still takes. */
  function Rank(t: Timer): nat {
    match t.stage
    case Waiting => if t.inTimerQueue then 5 else 6
    case AtSlot => 4
    case AtFrame => 3
    case AtComplete => 2
    case AtDelete => 1
    case Done => 0
  }

  /** The step that its timer, its callback or its runner takes next. */
  function NextOf(s: DelayState, id: RequestId): Step
    requires id in s.timers
  {
    if s.timers[id].stage == Waiting then if s.timers[id].inTimerQueue then DoFire(id) else DoStart(id)
    else if s.timers[id].stage == AtSlot then DoClearSlot(id)
    else DoAdvance(id)
  }

  lemma ComesCloser(s: DelayState, id: RequestId)
    requires id in s.timers && Sound(s.timers[id]) && s.timers[id].stage != Done
    ensures var t := Next(s, NextOf(s, id));
            id in t.timers && Rank(t.timers[id]) < Rank(s.timers[id])
  {
    hide AdjustPending;
  }

  /** No request is lost: in every reachable state one that is not done has a step that brings it closer,
      and no step of any thread sets a request back. */
  lemma NeverStranded(steps: seq<Step>, id: RequestId)
    requires id in Run(steps).timers && Run(steps).timers[id].stage != Done
    ensures var s := Run(steps);
            var t := Next(s, NextOf(s, id));
            id in t.timers && Rank(t.timers[id]) < Rank(s.timers[id])
  {
    RunInv(steps);
    SoundOf(Run(steps), id);
    hide Inv, Next, Rank, NextOf, Sound, Run;
    ComesCloser(Run(steps), id);
  }

  lemma SoundOf(s: DelayState, id: RequestId)
    requires Inv(s) && id in s.timers
    ensures Sound(s.timers[id])
  {
  }

  lemma NeverSetBack(steps: seq<Step>, step: Step, id: RequestId)
    requires id in Run(steps).timers
    ensures var s := Run(steps);
            var t := Next(s, step);
            id in t.timers && Rank(t.timers[id]) <= Rank(s.timers[id])
  {
    RunInv(steps);
    hide Run, AdjustPending, Logged, InOrder, Slotted, Counted;
    assert Sound(Run(steps).timers[id]);
  }

  /** The pending counters are the numbers of occupied slots, and with all requests done they are zero. */
  lemma PendingCountsSlots(steps: seq<Step>)
    ensures Counted(Run(steps))
    ensures (forall id :: id in Run(steps).timers ==> Run(steps).timers[id].stage == Done) ==>
              var s := Run(steps);
              s.slots == map[] && s.audioOutPending == 0 && s.audioInPending == 0 && s.hidInPending == 0
  {
    RunInv(steps);
    var s := Run(steps);
    if forall id :: id in s.timers ==> s.timers[id].stage == Done {
      forall q ensures q !in s.slots {
      }
      assert forall e :: Occupied(s.slots, e) == {};
    }
  }

  // ---------------------------------------------------------------------------------------------
  // The driver's own form
  // ---------------------------------------------------------------------------------------------

  lemma NextKeepsInv(s: DelayState, step: Step)
    requires Inv(s)
    ensures Inv(Next(s, step))
  {
    hide Next, AllSound, Slotted, Logged, InOrder, Counted;
    NextKeepsSound(s, step);
    NextKeepsSlotted(s, step);
    NextKeepsLogged(s, step);
    NextKeepsInOrder(s, step);
    NextKeepsCounted(s, step);
  }

  /** The endpoint queues' slots, the timers' contexts and the pending counters, updated in place. */
  class DelayedUrbs {
    var slots: map<Queue, RequestId>
    var timers: map<RequestId, Timer>
    var flushing: set<RequestId>
    var nextId: RequestId
    var audioOutPending: int
    var audioInPending: int
    var hidInPending: int
    ghost var log: seq<Event>

    ghost function State(): DelayState
      reads this
    {
      DelayState(slots, timers, flushing, nextId, audioOutPending, audioInPending, hidInPending, log)
    }

    ghost predicate Valid()
      reads this
    {
      Inv(State())
    }

    constructor ()
      ensures Valid() && State() == EMPTY
    {
      slots, timers, flushing, nextId, log := map[], map[], {}, 0, [];
      audioOutPending, audioInPending, hidInPending := 0, 0, 0;
      new;
      EmptyInv();
    }

    method AdjustEndpointDelayedPending(endpoint: Endpoint, delta: int)
      modifies this`audioOutPending, this`audioInPending, this`hidInPending
      ensures State() == AdjustPending(old(State()), endpoint, delta)
    {
      match endpoint {
        case AudioOut => audioOutPending := audioOutPending + delta;
        case AudioIn => audioInPending := audioInPending + delta;
        case HidIn => hidInPending := hidInPending + delta;
        case Other(_) =>
      }
    }

    /** Up to the end of the lock region; `StartDelayedTimer` is the rest. */
    method CompleteUrbAfterDelay(queue: Queue, frame: seq<u8>, canCreate: bool) returns (armed: bool, id: RequestId)
      requires Valid()
      modifies this
      ensures Valid() && State() == Arm(old(State()), queue, frame, canCreate)
      ensures armed == (|frame| <= FRAME_MAX_PAYLOAD && canCreate && queue !in old(slots)) && id == old(nextId)
    {
      hide Inv;
      NextKeepsInv(State(), DoArm(queue, frame, canCreate));
      id := nextId;
      var created := |frame| <= FRAME_MAX_PAYLOAD && canCreate;
      armed := created && queue !in slots;
      nextId := nextId + 1;
      if armed {
        slots := slots[queue := id];
        AdjustEndpointDelayedPending(queue.endpoint, 1);
        timers := timers[id := Timer(queue, frame, true, false, false, Nobody, Waiting)];
      } else {
        timers := timers[id := Timer(queue, frame, created, false, false, Caller, AtFrame)];
        if created {
          log := log + [Deleted(id)];
        }
      }
    }

    method StartDelayedTimer(id: RequestId)
      requires Valid() && id in timers && timers[id].runner == Nobody && !timers[id].started
      modifies this
      ensures Valid() && State() == StartTimer(old(State()), id) && timers[id].inTimerQueue
    {
      hide Inv;
      NextKeepsInv(State(), DoStart(id));
      timers := timers[id := timers[id].(started := true, inTimerQueue := true)];
    }

    /** The callback's lock region. */
    method DelayedTimerClearSlot(id: RequestId)
      requires Valid() && id in timers && timers[id].stage == AtSlot
      modifies this
      ensures Valid() && State() == ClearSlot(old(State()), id)
    {
      hide Inv;
      NextKeepsInv(State(), DoClearSlot(id));
      var queue := timers[id].queue;
      timers := timers[id := timers[id].(stage := AtFrame)];
      if queue in slots && slots[queue] == id {
        slots := slots - {queue};
        AdjustEndpointDelayedPending(queue.endpoint, -1);
      }
    }

    /** A flush's lock region. */
    method FlushTakeTimer(queue: Queue) returns (timer: Option<RequestId>)
      requires Valid()
      modifies this
      ensures Valid() && State() == Take(old(State()), queue)
      ensures timer == if queue in old(slots) then Some(old(slots)[queue]) else None
    {
      hide Inv;
      NextKeepsInv(State(), DoTake(queue));
      timer := None;
      if queue in slots {
        timer := Some(slots[queue]);
        flushing := flushing + {slots[queue]};
        slots := slots - {queue};
        AdjustEndpointDelayedPending(queue.endpoint, -1);
      }
    }

    /** The flush's attempt to stop the timer it took, once it need not wait for the callback. */
    method FlushStopTimer(id: RequestId) returns (stopped: bool)
      requires Valid() && id in flushing && id in timers
      requires timers[id].runner == Callback ==> timers[id].stage == Done
      modifies this
      ensures Valid() && State() == StopTimer(old(State()), id)
      ensures stopped == old(timers)[id].inTimerQueue
      ensures stopped ==> timers[id].runner == Flush
    {
      hide Inv;
      NextKeepsInv(State(), DoStop(id));
      stopped := timers[id].inTimerQueue;
      flushing := flushing - {id};
      if stopped {
        timers := timers[id := timers[id].(inTimerQueue := false, runner := Flush, stage := AtFrame)];
      }
    }
  }
}
