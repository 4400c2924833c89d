/** Which URB contexts each region of the host controller refers to, and when one of them was freed
    before. A context is freed when its URB is returned. */
module HcdContexts {
  import opened VdsTypes
  import opened HcdPacing
  import opened HcdUrbs
  import opened HcdInvariants
  import opened HcdThread
  import opened HcdTheorems

  ghost function Members(q: seq<UrbId>): set<UrbId> {
    set u | u in q
  }

  ghost predicate StandsAt(s: HcdState, u: UrbId, stage: Stage) {
    u in s.stages && s.stages[u] == stage
  }

  /** A request frame goes out for a deferred URB. */
  ghost predicate Asks(s: HcdState, u: UrbId) {
    StandsAt(s, u, Asking)
  }

  /** The contexts that the code of a region refers to, from where its thread stands and what is on the
      lists, whether they are still there or not. Queueing a completion walks the completed list. */
  ghost function Touched(s: HcdState, step: Step): set<UrbId> {
    match step
    case DoSchedule(u, _) => if StandsAt(s, u, Linked) then {u} else {}
    case DoPopInput(u, _) => if StandsAt(s, u, Linked) then {u} else {}
    case DoLookUp(u) => if StandsAt(s, u, Linked) then {u} else {}
    case DoDefer(u) => if StandsAt(s, u, Missed) then {u} else {}
    case DoAsk(u, status) => if Asks(s, u) && status != 0 then {u} + Members(s.completedUrbs) else {}
    case DoSettle(u) => if u in s.stages && s.stages[u].Decided? then {u} + Members(s.completedUrbs) else {}
    case DoDequeue(u, _) => if u in s.contexts then {u} + Members(s.completedUrbs) else {}
    case DoWriteInput(_, _) => if s.pendingHidIn == [] then {} else {s.pendingHidIn[0]} + Members(s.completedUrbs)
    case DoCompleteReply(_) => Members(s.pendingFeatureGet) + Members(s.completedUrbs)
    case DoDisconnect => Members(s.pendingHidIn) + Members(s.pendingFeatureGet) + Members(s.completedUrbs)
    case DoStop => Members(s.pendingHidIn) + Members(s.pendingFeatureGet) + Members(s.completedUrbs)
    case DoPick(_) => if s.completedUrbs == [] then {} else {s.completedUrbs[0]}
    case DoGiveback => if s.giving.Some? then {s.giving.value} else {}
    case _ => {}
  }

  // ---------------------------------------------------------------------------------------------
  // Threads inside urb_enqueue hold live contexts, but for those that only have to ask
  // ---------------------------------------------------------------------------------------------

  ghost predicate StagedLive(s: HcdState) {
    && (forall u :: u in s.stages ==> u < s.nextId)
    && (forall u :: u in s.stages && s.stages[u] != Asking ==> u in s.contexts && s.contexts[u].phase == Active)
  }

  /** The URBs inside urb_enqueue are left alone, and no thread enters or moves. */
  ghost predicate LeavesActive(s: HcdState, t: HcdState) {
    && t.stages == s.stages && t.nextId == s.nextId
    && (forall u :: u in s.contexts && s.contexts[u].phase == Active ==> u in t.contexts && t.contexts[u].phase == Active)
  }

  lemma LivesOn(s: HcdState, t: HcdState)
    requires StagedLive(s) && LeavesActive(s, t)
    ensures StagedLive(t)
  {
  }

  lemma GivebackKeepsActive(s: HcdState, v: UrbId, status: int)
    requires v in s.contexts && s.contexts[v].phase != Active
    ensures LeavesActive(s, QueueGiveback(s, v, status))
  {
    hide QueueGiveback, Without, InsertAt, InsertPosition;
    if Waiting(s, v) {
      QueuedAs(s, v, status);
    } else {
      NothingQueued(s, v, status);
    }
  }

  lemma LinkLives(s: HcdState, urb: Submission)
    requires StagedLive(s)
    ensures StagedLive(Link(s, urb))
  {
  }

  lemma ScheduleLives(s: HcdState, u: UrbId, now: nat)
    requires StagedLive(s)
    ensures StagedLive(ScheduleUrb(s, u, now))
  {
    hide ScheduleIso;
    if At(s, u, Linked) && s.contexts[u].kind.Iso? {
      ScheduleTimes(s, u, s.contexts[u].kind.lengths, s.contexts[u].kind.input, now);
    }
  }

  lemma PopLives(s: HcdState, u: UrbId, now: nat)
    requires StagedLive(s)
    ensures StagedLive(PopInput(s, u, now))
  {
    hide FillHidIn;
    if s.inputPackets != [] && s.written != [] && u in s.contexts {
      FilledAs(s.(inputPackets := s.inputPackets[1..]), u, |s.written| - 1, now);
      FillTouchesOne(s.(inputPackets := s.inputPackets[1..]), u, |s.written| - 1, now);
    }
  }

  lemma FillTouchesOne(s: HcdState, u: UrbId, index: nat, now: nat)
    ensures var t := FillHidIn(s, u, index, now);
            && t.stages == s.stages && t.nextId == s.nextId && t.contexts.Keys == s.contexts.Keys
            && forall x :: x in s.contexts && x != u ==> t.contexts[x] == s.contexts[x]
  {
    hide FillHidIn;
    FillKeepsStages(s, u, index, now);
    FillKeepsOthers(s, u, index, now);
  }

  lemma FillKeepsStages(s: HcdState, u: UrbId, index: nat, now: nat)
    ensures FillHidIn(s, u, index, now).stages == s.stages && FillHidIn(s, u, index, now).nextId == s.nextId
  {
    hide Schedule, FillInput;
  }

  lemma FillKeepsOthers(s: HcdState, u: UrbId, index: nat, now: nat)
    ensures var t := FillHidIn(s, u, index, now);
            t.contexts == if u in t.contexts && u in s.contexts then s.contexts[u := t.contexts[u]] else s.contexts
  {
    hide Schedule, FillInput;
  }

  lemma LookUpLives(s: HcdState, u: UrbId)
    requires StagedLive(s)
    ensures StagedLive(LookUp(s, u))
  {
    if At(s, u, Linked) && s.contexts[u].kind.FeatureGet? && s.contexts[u].kind.reportId in s.featureCache {
      FillKeepsRequest(s.contexts[u], s.featureCache[s.contexts[u].kind.reportId]);
    }
    hide FillFeature;
  }

  lemma DeferLives(s: HcdState, u: UrbId)
    requires StagedLive(s)
    ensures StagedLive(Defer(s, u))
  {
  }

  lemma UnstagedLives(s: HcdState, t: HcdState, u: UrbId)
    requires StagedLive(s) && t.nextId == s.nextId && t.stages == s.stages - {u}
    requires forall x :: x != u && x in s.contexts && s.contexts[x].phase == Active ==> x in t.contexts && t.contexts[x].phase == Active
    ensures StagedLive(t)
  {
  }

  lemma AskLives(s: HcdState, u: UrbId, status: int)
    requires StagedLive(s) && Inv(s)
    ensures StagedLive(Ask(s, u, status))
  {
    hide Inv, QueueGiveback, StagedLive, LeavesActive;
    if Asks(s, u) {
      AskingIsNotActive(s, u);
      if status != 0 && u in s.contexts {
        GivebackKeepsActive(s, u, status);
        LivesOn(s, QueueGiveback(s, u, status));
        LeaveLives(QueueGiveback(s, u, status), u, s.usedFreed);
        GivebackTakes(s, u, status, u);
      } else {
        LeaveLives(s, u, s.usedFreed);
        LeaveLives(s, u, true);
      }
    }
  }

  lemma LeaveLives(s: HcdState, u: UrbId, usedFreed: bool)
    requires StagedLive(s)
    ensures StagedLive(s.(stages := s.stages - {u}))
    ensures StagedLive(s.(stages := s.stages - {u}, usedFreed := usedFreed))
  {
  }

  lemma SettleLives(s: HcdState, u: UrbId)
    requires StagedLive(s)
    ensures StagedLive(Settle(s, u))
  {
    hide QueueGiveback, Without, InsertAt, InsertPosition;
    if u in s.contexts && s.contexts[u].phase == Active && u in s.stages && s.stages[u].Decided? {
      QueuedAs(s, u, s.stages[u].status);
      UnstagedLives(s, Settle(s, u), u);
    }
  }

  lemma DequeueLives(s: HcdState, u: UrbId, status: int)
    ensures LeavesActive(s, Dequeue(s, u, status))
  {
    hide QueueGiveback;
    if u in s.contexts && s.contexts[u].phase != Active {
      GivebackKeepsActive(s.(contexts := s.contexts[u := s.contexts[u].(unlinked := true)]), u, status);
    }
  }

  lemma WriteLives(s: HcdState, report: Report, now: nat)
    requires Inv(s)
    ensures LeavesActive(s, WriteInput(s, report, now))
  {
    hide Inv, QueueGiveback, FillHidIn, LeavesActive;
    if s.pendingHidIn != [] {
      PendingHead(s);
      var logged, u := s.(written := s.written + [report]), s.pendingHidIn[0];
      var filled := FillHidIn(logged, u, |s.written|, now);
      FillLives(s, logged, u, |s.written|, now);
      GivebackKeepsActive(filled, u, 0);
      LeavesBoth(s, filled, QueueGiveback(filled, u, 0));
    }
    AsideLives(s, s);
    BufferLives(s, report, now);
  }

  lemma BufferLives(s: HcdState, report: Report, now: nat)
    ensures s.pendingHidIn == [] ==> LeavesActive(s, WriteInput(s, report, now))
  {
    hide LeavesActive, WriteInput;
    if s.pendingHidIn == [] {
      BufferIs(s, report, now);
      AsideLives(s, WriteInput(s, report, now));
    }
  }

  lemma BufferIs(s: HcdState, report: Report, now: nat)
    requires s.pendingHidIn == []
    ensures var t := WriteInput(s, report, now); t.contexts == s.contexts && t.stages == s.stages && t.nextId == s.nextId
  {
    hide QueueGiveback, FillHidIn;
  }

  lemma LeavesBoth(s: HcdState, t: HcdState, r: HcdState)
    requires LeavesActive(s, t) && LeavesActive(t, r)
    ensures LeavesActive(s, r)
  {
  }

  lemma FillLives(s: HcdState, logged: HcdState, u: UrbId, index: nat, now: nat)
    requires logged.contexts == s.contexts && logged.stages == s.stages && logged.nextId == s.nextId
    requires u in s.contexts && s.contexts[u].phase != Active && index < |logged.written|
    ensures var t := FillHidIn(logged, u, index, now);
            LeavesActive(s, t) && u in t.contexts && t.contexts[u].phase != Active
  {
    hide FillHidIn;
    FilledAs(logged, u, index, now);
    FillTouchesOne(logged, u, index, now);
  }

  lemma ReplyLives(s: HcdState, report: Report)
    requires Inv(s)
    ensures LeavesActive(s, CompleteReply(s, report))
  {
    PendingIsNotActive(s);
    hide Inv, CompleteMatching, Listed;
    if report in s.replying && report != [] && !s.stopping {
      CompleteReplyMatches(s, report);
    }
  }

  lemma PendingIsNotActive(s: HcdState)
    requires Inv(s)
    ensures forall u :: u in s.contexts && s.contexts[u].phase == Active ==> u !in s.pendingFeatureGet
  {
  }

  lemma CancelledLives(s: HcdState)
    requires Inv(s)
    ensures LeavesActive(s, CancelPending(s, -ESHUTDOWN))
  {
    InvListed(s);
    hide Inv, CancelPending, Listed;
    CancelListed(s, -ESHUTDOWN);
    var c := CancelPending(s, -ESHUTDOWN);
    AdvancedStages(s, c);
    hide Advanced;
    forall u | u in s.contexts && s.contexts[u].phase == Active ensures u in c.contexts && c.contexts[u].phase == Active {
      CancelLeavesActive(s, u);
    }
  }

  lemma AdvancedStages(s: HcdState, t: HcdState)
    requires Advanced(s, t)
    ensures t.stages == s.stages && t.nextId == s.nextId
  {
  }

  lemma DisconnectLives(s: HcdState)
    requires Inv(s)
    ensures LeavesActive(s, Disconnect(s))
  {
    hide Inv, CancelPending, LeavesActive;
    CancelledLives(s);
    AsideLives(s, s);
    if !s.stopping {
      AsideLives(CancelPending(s, -ESHUTDOWN), Disconnect(s));
      LeavesBoth(s, CancelPending(s, -ESHUTDOWN), Disconnect(s));
    }
  }

  lemma StopLives(s: HcdState)
    requires Inv(s)
    ensures LeavesActive(s, Stop(s))
  {
    hide Inv, CancelPending, LeavesActive;
    CancelledLives(s);
    CancelWhileStopping(s, true, -ESHUTDOWN);
    AsideLives(CancelPending(s, -ESHUTDOWN), Stop(s));
    LeavesBoth(s, CancelPending(s, -ESHUTDOWN), Stop(s));
  }

  lemma PickLives(s: HcdState, now: nat)
    requires Inv(s)
    ensures LeavesActive(s, Pick(s, now))
  {
    hide Inv, Pick, Picked, LeavesActive;
    PickIs(s, now);
    AsideLives(s, s.(asleepUntil := Pick(s, now).asleepUntil));
    if s.completedUrbs != [] && s.completedUrbs[0] in s.contexts {
      CompletedOnce(s);
      assert s.completedUrbs[0] in s.completedUrbs;
      PickedLives(s, s.completedUrbs[0]);
    }
  }

  lemma PickedLives(s: HcdState, u: UrbId)
    requires u in s.contexts && s.completedUrbs != [] && s.contexts[u].phase != Active
    ensures LeavesActive(s, Picked(s, u))
  {
  }

  lemma GivebackLives(s: HcdState)
    requires s.giving.Some? ==> s.giving.value in s.contexts && s.contexts[s.giving.value].phase == GivingBack
    ensures LeavesActive(s, Giveback(s))
  {
  }

  lemma GivingIsLive(s: HcdState)
    requires Inv(s)
    ensures s.giving.Some? ==> s.giving.value in s.contexts && s.contexts[s.giving.value].phase == GivingBack
  {
  }

  lemma NextKeepsStagedLive(s: HcdState, step: Step)
    requires Inv(s) && StagedLive(s)
    ensures StagedLive(Next(s, step))
  {
    hide Inv, StagedLive, LeavesActive, Link, ScheduleUrb, PopInput, LookUp, Defer, Ask, Settle, Dequeue, WriteInput,
         CacheReply, CompleteReply, Connect, Disconnect, ResetUsb, SetProfile, Stop, Pick, Wake, StopThread, Giveback;
    match step
    case DoLink(urb) => LinkLives(s, urb);
    case DoSchedule(u, now) => ScheduleLives(s, u, now);
    case DoPopInput(u, now) => PopLives(s, u, now);
    case DoLookUp(u) => LookUpLives(s, u);
    case DoDefer(u) => DeferLives(s, u);
    case DoAsk(u, status) => AskLives(s, u, status);
    case DoSettle(u) => SettleLives(s, u);
    case _ =>
      OthersLeaveActive(s, step);
      LivesOn(s, Next(s, step));
  }

  lemma OthersLeaveActive(s: HcdState, step: Step)
    requires Inv(s)
    requires !(step.DoLink? || step.DoSchedule? || step.DoPopInput? || step.DoLookUp? || step.DoDefer? || step.DoAsk? || step.DoSettle?)
    ensures LeavesActive(s, Next(s, step))
  {
    hide Inv, LeavesActive, Dequeue, WriteInput, CacheReply, CompleteReply, Connect, Disconnect, ResetUsb, SetProfile, Stop, Pick,
         Wake, StopThread, Giveback;
    match step
    case DoDequeue(u, status) => DequeueLives(s, u, status);
    case DoWriteInput(report, now) => WriteLives(s, report, now);
    case DoCompleteReply(report) => ReplyLives(s, report);
    case DoDisconnect => DisconnectLives(s);
    case DoStop => StopLives(s);
    case DoPick(now) => PickLives(s, now);
    case DoGiveback =>
      GivingIsLive(s);
      GivebackLives(s);
    case DoCacheReply(report) => CacheAside(s, report);
    case DoSetProfile(interval) => ProfileAside(s, interval);
    case DoConnect => ConnectAside(s);
    case DoResetUsb => ResetAside(s);
    case DoWake(now) => WakeAside(s, now);
    case DoStopThread => StopThreadAside(s);
  }

  lemma CacheAside(s: HcdState, report: Report)
    ensures LeavesActive(s, CacheReply(s, report)) && CacheReply(s, report).usedFreed == s.usedFreed
  {
  }

  lemma ProfileAside(s: HcdState, hidInIntervalUs: nat)
    ensures LeavesActive(s, SetProfile(s, hidInIntervalUs)) && SetProfile(s, hidInIntervalUs).usedFreed == s.usedFreed
  {
  }

  lemma ConnectAside(s: HcdState)
    ensures LeavesActive(s, Connect(s)) && Connect(s).usedFreed == s.usedFreed
  {
  }

  lemma ResetAside(s: HcdState)
    ensures LeavesActive(s, ResetUsb(s)) && ResetUsb(s).usedFreed == s.usedFreed
  {
  }

  lemma WakeAside(s: HcdState, now: nat)
    ensures LeavesActive(s, Wake(s, now)) && Wake(s, now).usedFreed == s.usedFreed
  {
  }

  lemma StopThreadAside(s: HcdState)
    ensures LeavesActive(s, StopThread(s)) && StopThread(s).usedFreed == s.usedFreed
  {
  }

  lemma AsideLives(s: HcdState, t: HcdState)
    requires t.stages == s.stages && t.nextId == s.nextId && t.contexts == s.contexts
    ensures LeavesActive(s, t)
  {
  }

  lemma {:induction false} RunKeepsStagedLive(hidInIntervalUs: nat, steps: seq<Step>)
    requires ValidRun(steps)
    ensures StagedLive(Run(Init(hidInIntervalUs), steps))
  {
    hide Inv, Next, StagedLive;
    if steps != [] {
      var before := steps[..|steps| - 1];
      assert forall i :: 0 <= i < |before| ==> before[i] == steps[i];
      RunKeepsStagedLive(hidInIntervalUs, before);
      RunFromInit(hidInIntervalUs, before);
      NextKeepsStagedLive(Run(Init(hidInIntervalUs), before), steps[|steps| - 1]);
    } else {
      NoStages(hidInIntervalUs);
    }
  }

  lemma NoStages(hidInIntervalUs: nat)
    ensures StagedLive(Run(Init(hidInIntervalUs), []))
  {
  }

  // ---------------------------------------------------------------------------------------------
  // Freed contexts
  // ---------------------------------------------------------------------------------------------

  lemma ListsAreLive(s: HcdState)
    requires Inv(s)
    ensures Members(s.pendingHidIn) <= s.contexts.Keys && Members(s.pendingFeatureGet) <= s.contexts.Keys
    ensures Members(s.completedUrbs) <= s.contexts.Keys && (s.giving.Some? ==> s.giving.value in s.contexts)
    ensures forall u: UrbId :: u < s.nextId ==> u in s.contexts || u in s.returned
    ensures forall u :: u in s.contexts ==> u !in s.returned
  {
    assert Placed(s) && Accounted(s);
    hide Ordered, AllTruthful, Sleeps, HidFresh, FeatureServed, PacedStreams, Staged;
  }

  /** In every reachable state, every region refers to contexts of live URBs only, with one exception: a
      request frame that is refused refers to the context of its URB, which is freed exactly if the URB
      has been returned. */
  lemma OnlyARefusalUsesFreed(hidInIntervalUs: nat, steps: seq<Step>, step: Step)
    requires ValidRun(steps)
    ensures var s := Run(Init(hidInIntervalUs), steps);
            forall u :: u in Touched(s, step) ==>
                          if step.DoAsk? && u == step.u then u in s.contexts <==> u !in s.returned
                          else u in s.contexts
  {
    hide Run, Init, Inv;
    var s := Run(Init(hidInIntervalUs), steps);
    RunFromInit(hidInIntervalUs, steps);
    RunKeepsStagedLive(hidInIntervalUs, steps);
    ListsAreLive(s);
    assert s.completedUrbs != [] ==> s.completedUrbs[0] in Members(s.completedUrbs);
    assert s.pendingHidIn != [] ==> s.pendingHidIn[0] in Members(s.pendingHidIn);
    hide Members;
  }

  /** A refused request for a URB that was returned. */
  ghost predicate Faults(s: HcdState, step: Step) {
    step.DoAsk? && step.status != 0 && Asks(s, step.u) && step.u in s.returned
  }

  lemma NextFaults(s: HcdState, step: Step)
    requires Inv(s) && StagedLive(s)
    ensures Next(s, step).usedFreed == (s.usedFreed || Faults(s, step))
  {
    hide Inv, StagedLive, Ask, Faults;
    if step.DoAsk? {
      AskFaults(s, step.u, step.status);
    } else {
      OthersFaultless(s, step);
      OnlyAsksFault(s, step);
    }
  }

  lemma OnlyAsksFault(s: HcdState, step: Step)
    ensures !step.DoAsk? ==> !Faults(s, step)
  {
  }

  lemma OthersFaultless(s: HcdState, step: Step)
    requires Inv(s) && !step.DoAsk?
    ensures Next(s, step).usedFreed == s.usedFreed
  {
    hide Inv, Next;
    if step.DoLink? || step.DoSchedule? || step.DoPopInput? || step.DoLookUp? || step.DoDefer? || step.DoSettle? {
      EnqueuesFaultless(s, step);
    } else if step.DoCacheReply? || step.DoSetProfile? || step.DoConnect? || step.DoResetUsb? || step.DoWake? || step.DoStopThread? {
      FlagsFaultless(s, step);
    } else {
      RepliesFaultless(s, step);
    }
  }

  lemma EnqueuesFaultless(s: HcdState, step: Step)
    requires step.DoLink? || step.DoSchedule? || step.DoPopInput? || step.DoLookUp? || step.DoDefer? || step.DoSettle?
    ensures Next(s, step).usedFreed == s.usedFreed
  {
    hide Link, ScheduleUrb, PopInput, LookUp, Defer, Settle;
    match step
    case DoLink(urb) => LinkFaultless(s, urb);
    case DoSchedule(u, now) => ScheduleFaultless(s, u, now);
    case DoPopInput(u, now) => PopFaultless(s, u, now);
    case DoLookUp(u) => LookUpFaultless(s, u);
    case DoDefer(u) => LookUpFaultless(s, u);
    case DoSettle(u) => SettleFaultless(s, u);
  }

  lemma FlagsFaultless(s: HcdState, step: Step)
    requires step.DoCacheReply? || step.DoSetProfile? || step.DoConnect? || step.DoResetUsb? || step.DoWake? || step.DoStopThread?
    ensures Next(s, step).usedFreed == s.usedFreed
  {
    hide LeavesActive, CacheReply, Connect, ResetUsb, SetProfile, Wake, StopThread;
    match step
    case DoCacheReply(report) => CacheAside(s, report);
    case DoSetProfile(interval) => ProfileAside(s, interval);
    case DoConnect => ConnectAside(s);
    case DoResetUsb => ResetAside(s);
    case DoWake(now) => WakeAside(s, now);
    case DoStopThread => StopThreadAside(s);
  }

  lemma RepliesFaultless(s: HcdState, step: Step)
    requires Inv(s)
    requires step.DoPick? || step.DoGiveback? || step.DoDequeue? || step.DoWriteInput? || step.DoCompleteReply? || step.DoDisconnect?
             || step.DoStop?
    ensures Next(s, step).usedFreed == s.usedFreed
  {
    hide Inv, Dequeue, WriteInput, CompleteReply, Disconnect, Stop, Pick, Giveback;
    match step
    case DoPick(now) => PickFaultless(s, now);
    case DoGiveback => GivebackFaultless(s);
    case DoDequeue(u, status) => DequeueFaultless(s, u, status);
    case DoWriteInput(report, now) => WriteFaultless(s, report, now);
    case DoCompleteReply(report) => ReplyFaultless(s, report);
    case DoDisconnect => CancelFaultless(s);
    case DoStop => CancelFaultless(s);
  }

  lemma AskFaults(s: HcdState, u: UrbId, status: int)
    requires Inv(s) && StagedLive(s)
    ensures Ask(s, u, status).usedFreed == (s.usedFreed || Faults(s, DoAsk(u, status)))
  {
    hide Inv, StagedLive, QueueGiveback;
    ListsAreLive(s);
    AskingIsKnown(s, u);
    QueueFaultless(s, u, status);
  }

  lemma AskingIsKnown(s: HcdState, u: UrbId)
    requires StagedLive(s)
    ensures Asks(s, u) ==> u < s.nextId
  {
  }

  lemma QueueFaultless(s: HcdState, u: UrbId, status: int)
    ensures QueueGiveback(s, u, status).usedFreed == s.usedFreed
  {
    hide Without, InsertAt, InsertPosition;
  }

  lemma LinkFaultless(s: HcdState, urb: Submission)
    ensures Link(s, urb).usedFreed == s.usedFreed
  {
  }

  lemma ScheduleFaultless(s: HcdState, u: UrbId, now: nat)
    ensures ScheduleUrb(s, u, now).usedFreed == s.usedFreed
  {
    hide DurationUs, PcmBytes, Schedule;
  }

  lemma PopFaultless(s: HcdState, u: UrbId, now: nat)
    ensures PopInput(s, u, now).usedFreed == s.usedFreed
  {
    hide FillHidIn;
    if s.inputPackets != [] && s.written != [] {
      FillFaultless(s.(inputPackets := s.inputPackets[1..]), u, |s.written| - 1, now);
    }
  }

  lemma FillFaultless(s: HcdState, u: UrbId, index: nat, now: nat)
    ensures FillHidIn(s, u, index, now).usedFreed == s.usedFreed
  {
    hide Schedule, FillInput;
  }

  lemma LookUpFaultless(s: HcdState, u: UrbId)
    ensures LookUp(s, u).usedFreed == s.usedFreed && Defer(s, u).usedFreed == s.usedFreed
  {
    hide FillFeature;
  }

  lemma PickFaultless(s: HcdState, now: nat)
    ensures Pick(s, now).usedFreed == s.usedFreed
  {
    hide Pick;
    PickIs(s, now);
  }

  lemma GivebackFaultless(s: HcdState)
    ensures Giveback(s).usedFreed == s.usedFreed
  {
  }

  lemma SettleFaultless(s: HcdState, u: UrbId)
    ensures Settle(s, u).usedFreed == s.usedFreed
  {
    hide QueueGiveback;
    if u in s.stages && s.stages[u].Decided? {
      QueueFaultless(s, u, s.stages[u].status);
    }
  }

  lemma DequeueFaultless(s: HcdState, u: UrbId, status: int)
    ensures Dequeue(s, u, status).usedFreed == s.usedFreed
  {
    hide QueueGiveback;
    if u in s.contexts {
      QueueFaultless(s.(contexts := s.contexts[u := s.contexts[u].(unlinked := true)]), u, status);
    }
  }

  lemma WriteFaultless(s: HcdState, report: Report, now: nat)
    ensures WriteInput(s, report, now).usedFreed == s.usedFreed
  {
    hide QueueGiveback;
    if s.pendingHidIn != [] {
      QueueFaultless(FillHidIn(s.(written := s.written + [report]), s.pendingHidIn[0], |s.written|, now), s.pendingHidIn[0], 0);
    }
    hide Schedule, FillInput;
  }

  lemma ReplyFaultless(s: HcdState, report: Report)
    requires Inv(s)
    ensures CompleteReply(s, report).usedFreed == s.usedFreed
  {
    hide Inv, Listed, CompleteMatching;
    if report in s.replying && report != [] && !s.stopping {
      CompleteReplyMatches(s, report);
    }
  }

  lemma CancelFaultless(s: HcdState)
    requires Inv(s)
    ensures Disconnect(s).usedFreed == s.usedFreed && Stop(s).usedFreed == s.usedFreed
  {
    InvListed(s);
    hide Inv, Listed, CancelPending;
    CancelListed(s, -ESHUTDOWN);
    CancelWhileStopping(s, true, -ESHUTDOWN);
  }

  /** Over any run: a freed context has been used exactly if a request was refused whose URB had been
      returned before. */
  lemma {:induction false} FaultsExactly(hidInIntervalUs: nat, steps: seq<Step>)
    requires ValidRun(steps)
    ensures Run(Init(hidInIntervalUs), steps).usedFreed
       <==> exists i :: FaultAt(hidInIntervalUs, steps, i)
  {
    hide Inv, Next, StagedLive, Faults;
    if steps != [] {
      var before, last := steps[..|steps| - 1], steps[|steps| - 1];
      assert forall i :: 0 <= i < |before| ==> before[i] == steps[i];
      FaultsExactly(hidInIntervalUs, before);
      RunFromInit(hidInIntervalUs, before);
      RunKeepsStagedLive(hidInIntervalUs, before);
      NextFaults(Run(Init(hidInIntervalUs), before), last);
      assert Run(Init(hidInIntervalUs), steps) == Next(Run(Init(hidInIntervalUs), before), last);
      OneStepMore(hidInIntervalUs, steps);
    } else {
      NoFaultYet(hidInIntervalUs);
    }
  }

  ghost predicate FaultAt(hidInIntervalUs: nat, steps: seq<Step>, i: nat) {
    i < |steps| && Faults(Run(Init(hidInIntervalUs), steps[..i]), steps[i])
  }

  lemma OneStepMore(hidInIntervalUs: nat, steps: seq<Step>)
    requires steps != []
    ensures var before := steps[..|steps| - 1];
            (exists i :: FaultAt(hidInIntervalUs, steps, i))
            <==> (exists i :: FaultAt(hidInIntervalUs, before, i)) || FaultAt(hidInIntervalUs, steps, |steps| - 1)
  {
    hide Run, Init, Faults;
    var before := steps[..|steps| - 1];
    forall i: nat | i < |before| ensures FaultAt(hidInIntervalUs, steps, i) <==> FaultAt(hidInIntervalUs, before, i) {
      assert before[i] == steps[i] && before[..i] == steps[..i];
    }
  }

  lemma NoFaultYet(hidInIntervalUs: nat)
    ensures !Run(Init(hidInIntervalUs), []).usedFreed
  {
  }

  // ---------------------------------------------------------------------------------------------
  // Asking in time
  // ---------------------------------------------------------------------------------------------

  /** A step that can take the waiting URB `u` of feature report `id` off its list. */
  predicate Takes(step: Step, u: UrbId, id: u8) {
    match step
    case DoCompleteReply(report) => report != [] && report[0] == id
    case DoDequeue(v, _) => v == u
    case DoAsk(v, status) => v == u
    case DoDisconnect => true
    case DoStop => true
    case _ => false
  }

  /** The URB waits for report `id`, and its thread has yet to ask for it. */
  ghost predicate WaitsAsking(s: HcdState, u: UrbId, id: u8) {
    Asks(s, u) && u in s.pendingFeatureGet && u in s.contexts && s.contexts[u].kind == FeatureGet(id)
  }

  /** `u` is left as it is. */
  ghost predicate Untouched(s: HcdState, t: HcdState, u: UrbId) {
    && u in s.contexts && u in t.contexts && t.contexts[u] == s.contexts[u]
    && u in s.stages && u in t.stages && t.stages[u] == s.stages[u]
  }

  lemma StillAsking(s: HcdState, t: HcdState, u: UrbId, id: u8)
    requires Inv(s) && Inv(t) && WaitsAsking(s, u, id) && Untouched(s, t, u)
    ensures WaitsAsking(t, u, id)
  {
    WaitingPhase(s, u);
    WaitingPhase(t, u);
    hide Inv;
  }

  lemma WaitingPhase(s: HcdState, u: UrbId)
    requires Inv(s) && u in s.contexts
    ensures s.contexts[u].phase == PendingFeatureGet <==> u in s.pendingFeatureGet
  {
  }

  lemma QueueSpares(s: HcdState, v: UrbId, status: int, u: UrbId)
    requires u != v && u in s.contexts && u in s.stages
    ensures Untouched(s, QueueGiveback(s, v, status), u)
    ensures QueueGiveback(s, v, status).stages == s.stages
  {
    hide QueueGiveback, Without, InsertPosition, InsertAt;
    if Waiting(s, v) {
      QueuedAs(s, v, status);
    } else {
      NothingQueued(s, v, status);
    }
  }

  lemma LinkSpares(s: HcdState, urb: Submission, u: UrbId)
    requires Untouched(s, s, u) && u < s.nextId
    ensures Untouched(s, Link(s, urb), u)
  {
  }

  lemma ScheduleSpares(s: HcdState, v: UrbId, now: nat, u: UrbId)
    requires Untouched(s, s, u) && s.contexts[u].phase != Active
    ensures Untouched(s, ScheduleUrb(s, v, now), u)
  {
    hide ScheduleIso;
    if At(s, v, Linked) && s.contexts[v].kind.Iso? {
      ScheduleTimes(s, v, s.contexts[v].kind.lengths, s.contexts[v].kind.input, now);
      ScheduleSame(s, v, s.contexts[v].kind.lengths, s.contexts[v].kind.input, now);
    }
  }

  lemma PopSpares(s: HcdState, v: UrbId, now: nat, u: UrbId)
    requires Untouched(s, s, u) && s.contexts[u].phase != Active
    ensures Untouched(s, PopInput(s, v, now), u)
  {
    hide FillHidIn;
    if s.inputPackets != [] && s.written != [] {
      FillTouchesOne(s.(inputPackets := s.inputPackets[1..]), v, |s.written| - 1, now);
    }
  }

  lemma LookUpSpares(s: HcdState, v: UrbId, u: UrbId)
    requires Untouched(s, s, u) && s.contexts[u].phase != Active
    ensures Untouched(s, LookUp(s, v), u)
  {
    hide FillFeature, Untouched, LookUp;
    SelfStaged(s, u);
    LookUpTouchesOne(s, v);
    SparedBy(s, LookUp(s, v), v, u);
  }

  lemma LookUpTouchesOne(s: HcdState, v: UrbId)
    ensures var t := LookUp(s, v);
            || t == s
            || (v in s.contexts && s.contexts[v].phase == Active && v in t.contexts && v in t.stages
                && t.contexts == s.contexts[v := t.contexts[v]] && t.stages == s.stages[v := t.stages[v]])
  {
    hide FillFeature;
    if At(s, v, Linked) && s.contexts[v].kind.FeatureGet? {
      var id := s.contexts[v].kind.reportId;
      if id in s.featureCache {
        var (filled, status) := FillFeature(s.contexts[v], s.featureCache[id]);
        assert LookUp(s, v).contexts == s.contexts[v := filled];
        assert LookUp(s, v).stages == s.stages[v := Decided(status)];
      } else {
        assert LookUp(s, v).contexts == s.contexts && s.contexts[v := s.contexts[v]] == s.contexts;
        assert LookUp(s, v).stages == s.stages[v := Missed];
      }
    } else {
      assert LookUp(s, v) == s;
    }
  }

  lemma SparedBy(s: HcdState, t: HcdState, v: UrbId, u: UrbId)
    requires u in s.contexts && u in s.stages && s.contexts[u].phase != Active
    ensures t == s || (v in s.contexts && s.contexts[v].phase == Active && v in t.contexts && v in t.stages
                       && t.contexts == s.contexts[v := t.contexts[v]] && t.stages == s.stages[v := t.stages[v]])
       ==> Untouched(s, t, u)
  {
  }

  lemma DeferSpares(s: HcdState, v: UrbId, u: UrbId)
    requires Untouched(s, s, u) && s.contexts[u].phase != Active
    ensures Untouched(s, Defer(s, v), u)
  {
  }

  lemma AskSpares(s: HcdState, v: UrbId, status: int, u: UrbId)
    requires Untouched(s, s, u) && v != u
    ensures Untouched(s, Ask(s, v, status), u)
  {
    hide QueueGiveback, Untouched;
    UnstageSpares(s, s, Ask(s, v, status), v, u);
    if v in s.contexts {
      SelfStaged(s, u);
      QueueSpares(s, v, status, u);
      UnstageSpares(s, QueueGiveback(s, v, status), Ask(s, v, status), v, u);
    }
  }

  lemma SelfStaged(s: HcdState, u: UrbId)
    requires Untouched(s, s, u)
    ensures u in s.contexts && u in s.stages
  {
  }

  lemma UnstageSpares(s: HcdState, t: HcdState, r: HcdState, v: UrbId, u: UrbId)
    requires Untouched(s, t, u) && u != v
    ensures r == t.(stages := t.stages - {v}, usedFreed := r.usedFreed) ==> Untouched(s, r, u)
  {
  }

  lemma SettleSpares(s: HcdState, v: UrbId, u: UrbId)
    requires Untouched(s, s, u) && s.contexts[u].phase != Active
    ensures Untouched(s, Settle(s, v), u)
  {
    hide QueueGiveback;
    if v in s.stages && s.stages[v].Decided? && v != u {
      QueueSpares(s, v, s.stages[v].status, u);
    }
  }

  lemma DequeueSpares(s: HcdState, v: UrbId, status: int, u: UrbId)
    requires Untouched(s, s, u) && v != u
    ensures Untouched(s, Dequeue(s, v, status), u)
  {
    hide QueueGiveback;
    if v in s.contexts {
      QueueSpares(s.(contexts := s.contexts[v := s.contexts[v].(unlinked := true)]), v, status, u);
    }
  }

  lemma WriteSpares(s: HcdState, report: Report, now: nat, u: UrbId)
    requires Inv(s) && Untouched(s, s, u) && s.contexts[u].phase != PendingHidIn
    ensures Untouched(s, WriteInput(s, report, now), u)
  {
    hide Inv, QueueGiveback, FillHidIn;
    if s.pendingHidIn != [] {
      PendingHead(s);
      var logged, v := s.(written := s.written + [report]), s.pendingHidIn[0];
      FillTouchesOne(logged, v, |s.written|, now);
      QueueSpares(FillHidIn(logged, v, |s.written|, now), v, 0, u);
    }
  }

  lemma ReplySpares(s: HcdState, report: Report, u: UrbId)
    requires Inv(s) && Untouched(s, s, u) && !(report != [] && s.contexts[u].kind == FeatureGet(report[0]))
    ensures Untouched(s, CompleteReply(s, report), u)
  {
    if report in s.replying && report != [] && !s.stopping {
      CompleteReplyMatches(s, report);
    }
    hide Inv, Listed, CompleteMatching;
  }

  lemma PickSpares(s: HcdState, now: nat, u: UrbId)
    requires Inv(s) && Untouched(s, s, u) && s.contexts[u].phase == PendingFeatureGet
    ensures Untouched(s, Pick(s, now), u) && Untouched(s, Giveback(s), u)
  {
    hide Inv, Pick, Picked;
    CompletedOnce(s);
    GivingIsLive(s);
    PickIs(s, now);
    if s.completedUrbs != [] {
      assert s.completedUrbs[0] in s.completedUrbs;
      PickedSpares(s, s.completedUrbs[0], u);
    }
  }

  lemma PickedSpares(s: HcdState, v: UrbId, u: UrbId)
    requires v in s.contexts && s.completedUrbs != [] && u != v && Untouched(s, s, u)
    ensures Untouched(s, Picked(s, v), u)
  {
  }

  lemma OthersSpare(s: HcdState, step: Step, u: UrbId)
    requires Untouched(s, s, u)
    requires step.DoCacheReply? || step.DoConnect? || step.DoResetUsb? || step.DoSetProfile? || step.DoWake? || step.DoStopThread?
    ensures Untouched(s, Next(s, step), u)
  {
  }

  lemma NextKeepsAsking(s: HcdState, step: Step, u: UrbId, id: u8)
    requires Inv(s) && ValidStep(step) && WaitsAsking(s, u, id) && !Takes(step, u, id)
    ensures WaitsAsking(Next(s, step), u, id)
  {
    hide Inv, Untouched, Next, Takes;
    NextKeepsInv(s, step);
    WaitingPhase(s, u);
    ContextsAreNumbered(s, u);
    SelfUntouched(s, u);
    if step.DoLink? || step.DoSchedule? || step.DoPopInput? || step.DoLookUp? || step.DoDefer? || step.DoAsk? || step.DoSettle? {
      EnqueuesSpare(s, step, u, id);
    } else {
      RepliesSpare(s, step, u, id);
    }
    StillAsking(s, Next(s, step), u, id);
  }

  lemma EnqueuesSpare(s: HcdState, step: Step, u: UrbId, id: u8)
    requires Untouched(s, s, u) && s.contexts[u].phase == PendingFeatureGet && u < s.nextId && !Takes(step, u, id)
    requires step.DoLink? || step.DoSchedule? || step.DoPopInput? || step.DoLookUp? || step.DoDefer? || step.DoAsk? || step.DoSettle?
    ensures Untouched(s, Next(s, step), u)
  {
    hide Link, ScheduleUrb, PopInput, LookUp, Defer, Ask, Settle;
    match step
    case DoLink(urb) => LinkSpares(s, urb, u);
    case DoSchedule(v, now) => ScheduleSpares(s, v, now, u);
    case DoPopInput(v, now) => PopSpares(s, v, now, u);
    case DoLookUp(v) => LookUpSpares(s, v, u);
    case DoDefer(v) => DeferSpares(s, v, u);
    case DoAsk(v, status) => AskSpares(s, v, status, u);
    case DoSettle(v) => SettleSpares(s, v, u);
  }

  lemma RepliesSpare(s: HcdState, step: Step, u: UrbId, id: u8)
    requires Inv(s) && Untouched(s, s, u) && s.contexts[u].phase == PendingFeatureGet && s.contexts[u].kind == FeatureGet(id)
    requires !Takes(step, u, id)
    requires !(step.DoLink? || step.DoSchedule? || step.DoPopInput? || step.DoLookUp? || step.DoDefer? || step.DoAsk? || step.DoSettle?)
    ensures Untouched(s, Next(s, step), u)
  {
    hide Inv, Dequeue, WriteInput, CacheReply, CompleteReply, Connect, ResetUsb, SetProfile, Pick, Wake, StopThread, Giveback;
    match step
    case DoDequeue(v, status) => DequeueSpares(s, v, status, u);
    case DoWriteInput(report, now) => WriteSpares(s, report, now, u);
    case DoCompleteReply(report) => ReplySpares(s, report, u);
    case DoPick(now) => PickSpares(s, now, u);
    case DoGiveback => PickSpares(s, 0, u);
    case _ => OthersSpare(s, step, u);
  }

  lemma SelfUntouched(s: HcdState, u: UrbId)
    requires u in s.contexts && u in s.stages
    ensures Untouched(s, s, u)
  {
  }

  lemma ContextsAreNumbered(s: HcdState, u: UrbId)
    requires Inv(s) && u in s.contexts
    ensures u < s.nextId
  {
  }

  /** A refusal is harmless if, between the URB's deferral and its request frame, no reply with its id, no
      dequeue of it, no disconnect and no stop has come: the URB still waits then. */
  lemma {:induction false} AskedInTime(s: HcdState, rest: seq<Step>, u: UrbId, id: u8)
    requires Inv(s) && ValidRun(rest) && WaitsAsking(s, u, id)
    requires forall i :: 0 <= i < |rest| ==> !Takes(rest[i], u, id)
    ensures WaitsAsking(Run(s, rest), u, id)
    ensures forall status :: !Faults(Run(s, rest), DoAsk(u, status))
  {
    hide Inv, Next, WaitsAsking, Takes, Faults;
    if rest != [] {
      var before := rest[..|rest| - 1];
      assert forall i :: 0 <= i < |before| ==> before[i] == rest[i];
      AskedInTime(s, before, u, id);
      RunKeepsInv(s, before);
      NextKeepsAsking(Run(s, before), rest[|rest| - 1], u, id);
    }
    RunKeepsInv(s, rest);
    LiveIsNotReturned(Run(s, rest), u, id);
  }

  lemma LiveIsNotReturned(s: HcdState, u: UrbId, id: u8)
    requires Inv(s) && WaitsAsking(s, u, id)
    ensures forall status :: !Faults(s, DoAsk(u, status))
  {
    ListsAreLive(s);
    hide Inv;
  }

  // ---------------------------------------------------------------------------------------------
  // Asking too late
  // ---------------------------------------------------------------------------------------------

  /** The device stops between an URB's deferral and its request frame, which is then refused. */
  const LATE := [DoLink(REQUEST), DoLookUp(0), DoDefer(0), DoStop, DoPick(1), DoGiveback]

  lemma DeferredAlone()
    ensures var t := Run(Init(4000), [DoLink(REQUEST), DoLookUp(0), DoDefer(0)]);
            && t.pendingFeatureGet == [0] && t.pendingHidIn == [] && t.completedUrbs == [] && t.giving.None? && t.asleepUntil.None?
            && t.returned == [] && Asks(t, 0) && t.contexts.Keys == {0} && t.contexts[0].readyTime == 0
            && t.contexts[0].phase == PendingFeatureGet
  {
    hide Run, Init, Link, LookUp;
    RequestMisses();
    RequestAlone();
    var s := Run(Init(4000), [DoLink(REQUEST), DoLookUp(0)]);
    RunStep(Init(4000), [DoLink(REQUEST), DoLookUp(0)], DoDefer(0));
    assert [DoLink(REQUEST), DoLookUp(0)] + [DoDefer(0)] == [DoLink(REQUEST), DoLookUp(0), DoDefer(0)];
  }

  lemma RequestAlone()
    ensures var t := Run(Init(4000), [DoLink(REQUEST), DoLookUp(0)]);
            && t.pendingHidIn == [] && t.completedUrbs == [] && t.giving.None? && t.asleepUntil.None? && t.returned == []
            && t.contexts.Keys == {0} && t.contexts[0].readyTime == 0
  {
    hide Run;
    RunTwo(Init(4000), DoLink(REQUEST), DoLookUp(0));
  }

  lemma StoppedAlone(s: HcdState)
    requires s.pendingFeatureGet == [0] && s.pendingHidIn == [] && s.completedUrbs == [] && s.giving.None? && s.asleepUntil.None?
    requires s.returned == [] && Asks(s, 0) && s.contexts.Keys == {0} && s.contexts[0].readyTime == 0
    requires s.contexts[0].phase == PendingFeatureGet
    ensures var t := Stop(s);
            && t.completedUrbs == [0] && t.giving.None? && t.asleepUntil.None? && t.returned == [] && Asks(t, 0)
            && t.contexts.Keys == {0} && t.contexts[0].readyTime == 0
  {
    var m := s.(stopping := true);
    hide QueueGiveback, Without, InsertPosition, InsertAt;
    QueuedAs(m, 0, -ESHUTDOWN);
    var q := QueueGiveback(m, 0, -ESHUTDOWN);
    AloneRemoved();
    assert QueueAll(m, [], -ESHUTDOWN) == m;
    assert [0][1..] == [] && QueueAll(q, [], -ESHUTDOWN) == q;
    assert QueueAll(m, [0], -ESHUTDOWN) == q;
  }

  lemma AloneRemoved()
    ensures Without([0], 0) == []
    ensures forall contexts, ready :: InsertPosition([], contexts, ready) == 0
    ensures InsertAt([], 0, 0) == [0]
  {
  }

  lemma ReturnedAlone(s: HcdState)
    requires s.completedUrbs == [0] && s.giving.None? && s.asleepUntil.None? && s.returned == [] && Asks(s, 0)
    requires s.contexts.Keys == {0} && s.contexts[0].readyTime == 0
    ensures var t := Giveback(Pick(s, 1));
            t.returned == [0] && Asks(t, 0) && 0 !in t.contexts
  {
    var p := Pick(s, 1);
    assert p.giving == Some(0) && p.contexts.Keys == {0};
    hide Pick;
  }

  /** A concrete run: the URB is returned, its thread has yet to ask, and the refusal that the stop makes
      certain uses the freed context. */
  lemma StopFreesBeforeTheRequest()
    ensures var s := Run(Init(4000), LATE);
            s.stopping && s.returned == [0] && Faults(s, DoAsk(0, -ESHUTDOWN)) && Next(s, DoAsk(0, -ESHUTDOWN)).usedFreed
  {
    hide Run, Init, Link, LookUp, Defer, Stop, Pick, Giveback;
    DeferredAlone();
    var deferred := [DoLink(REQUEST), DoLookUp(0), DoDefer(0)];
    var s := Run(Init(4000), deferred);
    RunStep(Init(4000), deferred, DoStop);
    RunStep(Init(4000), deferred + [DoStop], DoPick(1));
    RunStep(Init(4000), deferred + [DoStop] + [DoPick(1)], DoGiveback);
    assert deferred + [DoStop] + [DoPick(1)] + [DoGiveback] == LATE;
    StoppedAlone(s);
    ReturnedAlone(Stop(s));
    StopsForGood(s);
  }

  lemma StopsForGood(s: HcdState)
    ensures Giveback(Pick(Stop(s), 1)).stopping
  {
    CancelWhileStopping(s, true, -ESHUTDOWN);
    hide CancelPending, Due;
  }
}
