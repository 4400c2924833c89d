/** What the host controller promises over whole runs, for every order of its steps. A run stands for one
    of the driver as long as no freed context has been used; `HcdContexts` says when that is. */
module HcdTheorems {
  import opened VdsTypes
  import opened HcdPacing
  import opened HcdUrbs
  import opened HcdInvariants
  import opened HcdThread

  lemma RunInv(hidInIntervalUs: nat, steps: seq<Step>)
    requires ValidRun(steps)
    ensures Inv(Run(Init(hidInIntervalUs), steps))
  {
    RunKeepsInv(Init(hidInIntervalUs), steps);
  }

  /** In how many places an accepted URB is: inside urb_enqueue, waiting for input, waiting for a
      feature report, completed, in giveback, or returned. */
  ghost function Places(s: HcdState, u: UrbId): nat {
    (if u in s.contexts && s.contexts[u].phase == Active then 1 else 0)
    + (if u in s.pendingHidIn then 1 else 0) + (if u in s.pendingFeatureGet then 1 else 0)
    + (if u in s.completedUrbs then 1 else 0) + (if s.giving == Some(u) then 1 else 0)
    + (if u in s.returned then 1 else 0)
  }

  /** Exactly once: in every reachable state each accepted URB is in exactly one place, no list holds
      it twice, and nothing else is on any list. */
  lemma EveryUrbInOnePlace(hidInIntervalUs: nat, steps: seq<Step>)
    requires ValidRun(steps)
    ensures var s := Run(Init(hidInIntervalUs), steps);
            && (forall u: UrbId :: Places(s, u) == if u < s.nextId then 1 else 0)
            && Distinct(s.pendingHidIn) && Distinct(s.pendingFeatureGet)
            && Distinct(s.completedUrbs) && Distinct(s.returned)
  {
    RunInv(hidInIntervalUs, steps);
    var s := Run(Init(hidInIntervalUs), steps);
    hide Run;
    forall u: UrbId ensures Places(s, u) == if u < s.nextId then 1 else 0 {
      PlacedOnce(s, u);
    }
  }

  lemma PlacedOnce(s: HcdState, u: UrbId)
    requires Placed(s) && Accounted(s)
    ensures Places(s, u) == if u < s.nextId then 1 else 0
  {
    if u in s.contexts {
      match s.contexts[u].phase
      case Active =>
      case PendingHidIn =>
      case PendingFeatureGet =>
      case PendingGiveback =>
      case GivingBack =>
    }
  }

  /** How many regions the thread inside urb_enqueue has left at most. */
  ghost function RegionsLeft(s: HcdState, u: UrbId): nat {
    if u !in s.contexts || s.contexts[u].phase != Active || u !in s.stages then 0
    else match s.stages[u]
      case Linked => 3
      case Missed => 2
      case Asking => 0
      case Decided(_) => 1
  }

  /** The region it enters next. */
  ghost function Onward(s: HcdState, u: UrbId, now: nat): Step
    requires u in s.contexts && u in s.stages
  {
    match s.stages[u]
    case Linked => (match s.contexts[u].kind
                    case HidIn => DoPopInput(u, now)
                    case FeatureGet(_) => DoLookUp(u)
                    case _ => DoSchedule(u, now))
    case Missed => DoDefer(u)
    case Asking => DoAsk(u, 0)
    case Decided(_) => DoSettle(u)
  }

  /** No enqueue is stuck: in every reachable state the thread inside urb_enqueue has a region to enter
      that brings its URB nearer to being queued or pending. */
  lemma EnqueueGoesOn(hidInIntervalUs: nat, steps: seq<Step>, u: UrbId, now: nat)
    requires ValidRun(steps) && now > 0
    requires var s := Run(Init(hidInIntervalUs), steps); u in s.contexts && s.contexts[u].phase == Active
    ensures var s := Run(Init(hidInIntervalUs), steps);
            u in s.stages && RegionsLeft(Next(s, Onward(s, u, now)), u) < RegionsLeft(s, u)
  {
    RunInv(hidInIntervalUs, steps);
    var s := Run(Init(hidInIntervalUs), steps);
    hide Run, Listed, Rest, RegionsLeft, Next;
    assert Staged(s);
    match s.stages[u]
    case Missed => DeferGoesOn(s, u);
    case Decided(_) => SettleGoesOn(s, u);
    case Linked =>
      match s.contexts[u].kind {
        case HidIn => PopGoesOn(s, u, now);
        case FeatureGet(_) => LookUpGoesOn(s, u);
        case Iso(_, _) => ScheduleGoesOn(s, u, now);
      }
  }

  lemma PopGoesOn(s: HcdState, u: UrbId, now: nat)
    requires At(s, u, Linked) && s.contexts[u].kind.HidIn?
    ensures RegionsLeft(Next(s, DoPopInput(u, now)), u) < RegionsLeft(s, u)
  {
    hide Schedule, FillInput;
    if s.inputPackets != [] && s.written != [] {
      assert PopInput(s, u, now).stages[u] == Decided(0);
    } else {
      assert PopInput(s, u, now).contexts[u].phase == PendingHidIn;
    }
  }

  lemma LookUpGoesOn(s: HcdState, u: UrbId)
    requires At(s, u, Linked) && s.contexts[u].kind.FeatureGet?
    ensures RegionsLeft(Next(s, DoLookUp(u)), u) < RegionsLeft(s, u)
  {
    var stage := LookUp(s, u).stages[u];
    assert stage == Missed || stage.Decided?;
  }

  lemma ScheduleGoesOn(s: HcdState, u: UrbId, now: nat)
    requires At(s, u, Linked) && s.contexts[u].kind.Iso?
    ensures RegionsLeft(Next(s, DoSchedule(u, now)), u) < RegionsLeft(s, u)
  {
    hide DurationUs, PcmBytes, Schedule;
    assert ScheduleUrb(s, u, now).stages[u] == Decided(0);
  }

  lemma DeferGoesOn(s: HcdState, u: UrbId)
    requires At(s, u, Missed) && u in s.marks
    ensures RegionsLeft(Next(s, DoDefer(u)), u) < RegionsLeft(s, u)
  {
    assert s.stopping ==> Defer(s, u).stages[u].Decided?;
  }

  lemma SettleGoesOn(s: HcdState, u: UrbId)
    requires u in s.stages && s.stages[u].Decided? && At(s, u, s.stages[u])
    ensures RegionsLeft(Next(s, DoSettle(u)), u) < RegionsLeft(s, u)
  {
    assert u !in Settle(s, u).stages;
  }

  /** The completed list of every reachable state is ordered. */
  lemma CompletedAlwaysOrdered(hidInIntervalUs: nat, steps: seq<Step>)
    requires ValidRun(steps)
    ensures Ordered(Run(Init(hidInIntervalUs), steps))
  {
    RunInv(hidInIntervalUs, steps);
  }

  /** Input reports: a waiting URB and a buffered report never coexist, the buffer is the newest
      report written, and reports reach the host in the order written, none twice. */
  lemma InputAlwaysFresh(hidInIntervalUs: nat, steps: seq<Step>)
    requires ValidRun(steps)
    ensures HidFresh(Run(Init(hidInIntervalUs), steps))
  {
    RunInv(hidInIntervalUs, steps);
  }

  /** When exactly an URB waits for a report that is cached: some reply came to the cache after the
      URB's look-up, and the cache was not cleared since. No reply has come to the end of its second
      region since the URB's deferral, for it would have completed it. */
  lemma WaitsForCachedExactly(hidInIntervalUs: nat, steps: seq<Step>, u: UrbId)
    requires ValidRun(steps) && u in Run(Init(hidInIntervalUs), steps).pendingFeatureGet
    ensures var s := Run(Init(hidInIntervalUs), steps);
            && u in s.contexts && s.contexts[u].kind.FeatureGet? && u in s.marks
            && var id := s.contexts[u].kind.reportId;
            && (id in s.featureCache <==> CachedSince(s.cacheLog, s.marks[u].missedAt, id))
            && (forall k :: s.marks[u].servedAt <= k < |s.served| ==> s.served[k] != id)
  {
    RunInv(hidInIntervalUs, steps);
    var s := Run(Init(hidInIntervalUs), steps);
    hide Run, Listed;
    assert StillWaits(s, u);
    CachedAfter(s.cacheLog, s.marks[u].missedAt, s.contexts[u].kind.reportId);
  }

  lemma CachedWithin(log: seq<Option<u8>>, from: nat, k: nat, id: u8)
    requires k < from <= |log| && log[k] == Some(id) && forall m :: k < m < |log| ==> log[m] != None
    ensures CachedSince(log[..from], 0, id)
  {
    assert log[..from][k] == Some(id);
  }

  /** What was not cached at `from` and is cached now was cached in between. */
  lemma CachedAfter(log: seq<Option<u8>>, from: nat, id: u8)
    requires from <= |log| && !CachedSince(log[..from], 0, id)
    ensures CachedSince(log, 0, id) <==> CachedSince(log, from, id)
  {
    if CachedSince(log, 0, id) {
      var k :| 0 <= k < |log| && log[k] == Some(id) && forall m :: k < m < |log| ==> log[m] != None;
      if k < from {
        CachedWithin(log, from, k, id);
      }
    }
  }

  /** So no URB waits for a cached report if no reply for its id is between its two regions and none
      came to the cache between the URB's look-up and its deferral. */
  lemma NoWaitForCachedFeature(hidInIntervalUs: nat, steps: seq<Step>, u: UrbId)
    requires ValidRun(steps) && u in Run(Init(hidInIntervalUs), steps).pendingFeatureGet
    requires var s := Run(Init(hidInIntervalUs), steps);
             u in s.contexts && s.contexts[u].kind.FeatureGet? && u in s.marks
             && var id := s.contexts[u].kind.reportId;
             && !WriterFor(s, id)
             && (forall k :: s.marks[u].missedAt <= k < s.marks[u].deferredAt && k < |s.cacheLog| ==> s.cacheLog[k] != Some(id))
    ensures var s := Run(Init(hidInIntervalUs), steps);
            s.contexts[u].kind.reportId !in s.featureCache
  {
    WaitsForCachedExactly(hidInIntervalUs, steps, u);
    RunInv(hidInIntervalUs, steps);
    var s := Run(Init(hidInIntervalUs), steps);
    hide Run, Listed;
    assert StillWaits(s, u);
  }

  lemma RunStep(s: HcdState, steps: seq<Step>, step: Step)
    ensures Run(s, steps + [step]) == Next(Run(s, steps), step)
  {
    assert (steps + [step])[..|steps|] == steps;
  }

  lemma RunTwo(s: HcdState, a: Step, b: Step)
    ensures Run(s, [a, b]) == Next(Next(s, a), b)
  {
    hide Next;
    RunStep(s, [], a);
    RunStep(s, [a], b);
    assert [] + [a] == [a] && [a] + [b] == [a, b];
  }

  const REQUEST := Submission(FeatureGet(5), true, 64)

  /** The first two regions of a feature request that misses the cache. */
  lemma RequestMisses()
    ensures var s := Run(Init(4000), [DoLink(REQUEST), DoLookUp(0)]);
            && At(s, 0, Missed) && 0 in s.marks && s.contexts[0].kind == FeatureGet(5)
            && !s.stopping && s.pendingFeatureGet == [] && s.replying == multiset{}
  {
    RunTwo(Init(4000), DoLink(REQUEST), DoLookUp(0));
  }

  /** The two ways an URB comes to wait for a cached report. A reply is between its regions: it has
      cached its report but not yet handed it on; */
  lemma WaitsInsideReply()
    ensures var steps := [DoLink(REQUEST), DoLookUp(0), DoDefer(0), DoCacheReply([5])];
            var s := Run(Init(4000), steps);
            s.pendingFeatureGet == [0] && 5 in s.featureCache
  {
    hide Run, Link, LookUp, Init;
    RequestMisses();
    var missed := [DoLink(REQUEST), DoLookUp(0)];
    var s := Run(Init(4000), missed);
    RunStep(Init(4000), missed, DoDefer(0));
    RunStep(Init(4000), missed + [DoDefer(0)], DoCacheReply([5]));
    assert missed + [DoDefer(0)] + [DoCacheReply([5])] == [DoLink(REQUEST), DoLookUp(0), DoDefer(0), DoCacheReply([5])];
    assert Defer(s, 0).pendingFeatureGet == [0];
  }

  /** or a whole reply came between the look-up and the deferral: it is over, and the URB waits. */
  lemma WaitsAfterReply()
    ensures var steps := [DoLink(REQUEST), DoLookUp(0), DoCacheReply([5]), DoCompleteReply([5]), DoDefer(0)];
            var s := Run(Init(4000), steps);
            s.pendingFeatureGet == [0] && 5 in s.featureCache && s.replying == multiset{}
  {
    hide Run, Link, LookUp, Init;
    RequestMisses();
    var missed := [DoLink(REQUEST), DoLookUp(0)];
    var s := Run(Init(4000), missed);
    RunStep(Init(4000), missed, DoCacheReply([5]));
    RunStep(Init(4000), missed + [DoCacheReply([5])], DoCompleteReply([5]));
    RunStep(Init(4000), missed + [DoCacheReply([5])] + [DoCompleteReply([5])], DoDefer(0));
    assert missed + [DoCacheReply([5])] + [DoCompleteReply([5])] + [DoDefer(0)]
        == [DoLink(REQUEST), DoLookUp(0), DoCacheReply([5]), DoCompleteReply([5]), DoDefer(0)];
    var cached := CacheReply(s, [5]);
    assert 5 in cached.featureCache && cached.replying == multiset{[5]};
    var replied := CompleteReply(cached, [5]);
    assert replied == cached.(replying := multiset{}, served := s.served + [5]);
    hide CacheReply, CompleteReply;
    assert Defer(replied, 0).pendingFeatureGet == [0];
  }

  /** What the host is told: a feature URB that succeeds has a report of its id; a HID IN URB that
      succeeds has a written report exactly if there was anywhere to put one. */
  lemma SuccessIsTruthful(hidInIntervalUs: nat, steps: seq<Step>, u: UrbId)
    requires ValidRun(steps)
    requires var s := Run(Init(hidInIntervalUs), steps);
             u in s.contexts && s.contexts[u].phase in {PendingGiveback, GivingBack} && s.contexts[u].status == 0
    ensures var s := Run(Init(hidInIntervalUs), steps);
            var c := s.contexts[u];
            match c.kind
            case FeatureGet(id) => c.reply.Some? && c.reply.value != [] && c.reply.value[0] == id
            case HidIn => c.reply.Some? && c.reply.value in s.written <==> c.hasBuffer || c.bufferLength == 0
            case Iso(_, _) => c.hasBuffer
            case Immediate(status) => status == 0
  {
    RunInv(hidInIntervalUs, steps);
    var s := Run(Init(hidInIntervalUs), steps);
    hide Run, Rest;
    assert Outcome(s, u) == Some(0);
  }

  /** Without a buffer a HID IN URB takes the report, succeeds and has nothing. */
  lemma SucceedsWithNothing()
    ensures var steps := [DoWriteInput([1, 2], 1), DoLink(Submission(HidIn, false, 64)), DoPopInput(0, 2), DoSettle(0)];
            var s := Run(Init(4000), steps);
            && s.completedUrbs == [0] && 0 in s.contexts && s.contexts[0].status == 0 && s.contexts[0].reply == None
            && s.inputPackets == []
  {
    hide Run, Init, WriteInput, Link, PopInput, Settle;
    var write, link := DoWriteInput([1, 2], 1), DoLink(Submission(HidIn, false, 64));
    RunTwo(Init(4000), write, link);
    RunStep(Init(4000), [write, link], DoPopInput(0, 2));
    RunStep(Init(4000), [write, link] + [DoPopInput(0, 2)], DoSettle(0));
    assert [write, link] + [DoPopInput(0, 2)] + [DoSettle(0)] == [write, link, DoPopInput(0, 2), DoSettle(0)];
    WrittenThenLinked();
    var linked := Link(WriteInput(Init(4000), [1, 2], 1), Submission(HidIn, false, 64));
    NothingPopped(linked);
    SettledAlone(PopInput(linked, 0, 2));
  }

  lemma WrittenThenLinked()
    ensures var t := Link(WriteInput(Init(4000), [1, 2], 1), Submission(HidIn, false, 64));
            && At(t, 0, Linked) && t.written == [[1, 2]] && t.inputPackets == [[1, 2]] && t.completedUrbs == []
            && t.contexts[0].kind == HidIn && !t.contexts[0].hasBuffer && t.contexts[0].bufferLength == 64
  {
    var w := WriteInput(Init(4000), [1, 2], 1);
    assert w == Init(4000).(written := [[1, 2]], inputPackets := [[1, 2]]);
    hide WriteInput;
  }

  lemma NothingPopped(s: HcdState)
    requires At(s, 0, Linked) && s.written == [[1, 2]] && s.inputPackets == [[1, 2]] && s.completedUrbs == []
    requires s.contexts[0].kind == HidIn && !s.contexts[0].hasBuffer && s.contexts[0].bufferLength == 64
    ensures var t := PopInput(s, 0, 2);
            && At(t, 0, Decided(0)) && t.contexts[0].reply == None && t.inputPackets == [] && t.completedUrbs == []
  {
    hide Schedule;
    assert s.inputPackets[1..] == [];
  }

  lemma SettledAlone(s: HcdState)
    requires At(s, 0, Decided(0)) && s.contexts[0].reply == None && s.completedUrbs == []
    ensures var t := Settle(s, 0);
            && t.completedUrbs == [0] && 0 in t.contexts && t.contexts[0].status == 0 && t.contexts[0].reply == None
            && t.inputPackets == s.inputPackets
  {
    hide Without;
  }

  ghost predicate AllMeasurable(slots: seq<Slot>, input: bool, first: nat, last: nat) {
    forall i :: first < i <= last && i < |slots| ==> PlayTimeUs(slots[i].pcmBytes, input) < U32_RANGE
  }

  /** Real time, in every reachable state: between any two ISO completions scheduled in the current
      connection the clock advances by at least the PCM of the later ones. */
  lemma IsoNeverFasterThanRealTime(hidInIntervalUs: nat, steps: seq<Step>, input: bool, i: nat, j: nat)
    requires ValidRun(steps)
    requires var s := Run(Init(hidInIntervalUs), steps);
             var slots := if input then s.isoIn else s.isoOut;
             i <= j < |slots| && AllMeasurable(slots, input, i, j)
    ensures var s := Run(Init(hidInIntervalUs), steps);
            var slots := if input then s.isoIn else s.isoOut;
            (slots[j].ready - slots[i].ready) * BytesPerMs(input) >= PcmSum(slots, i, j) * 1000 * NSEC_PER_USEC
  {
    RunInv(hidInIntervalUs, steps);
    var s := Run(Init(hidInIntervalUs), steps);
    RateBound(if input then s.isoIn else s.isoOut, if input then s.nextIsoInReady else s.nextIsoOutReady, input, i, j);
  }

  /** And while the direction never idles and every URB carries at least 1 ms, by at most 1 us more
      per URB. */
  lemma IsoNeverSlowerWhileBusy(hidInIntervalUs: nat, steps: seq<Step>, input: bool, i: nat, j: nat)
    requires ValidRun(steps)
    requires var s := Run(Init(hidInIntervalUs), steps);
             var slots := if input then s.isoIn else s.isoOut;
             && i <= j < |slots| && AllMeasurable(slots, input, i, j)
             && (forall k :: i < k <= j ==> slots[k].pcmBytes >= BytesPerMs(input) && slots[k].queuedBehind)
    ensures var s := Run(Init(hidInIntervalUs), steps);
            var slots := if input then s.isoIn else s.isoOut;
            (slots[j].ready - slots[i].ready) * BytesPerMs(input)
            <= PcmSum(slots, i, j) * 1000 * NSEC_PER_USEC + (j - i) * ((BytesPerMs(input) - 1) * NSEC_PER_USEC)
  {
    RunInv(hidInIntervalUs, steps);
    var s := Run(Init(hidInIntervalUs), steps);
    BacklogDrift(if input then s.isoIn else s.isoOut, if input then s.nextIsoInReady else s.nextIsoOutReady, input, i, j);
  }

  /** HID IN completions of one connection, scheduled since the profile was last set, are spaced by at
      least that profile's interval. */
  lemma HidInSpaced(hidInIntervalUs: nat, steps: seq<Step>, i: nat, j: nat)
    requires ValidRun(steps)
    requires var s := Run(Init(hidInIntervalUs), steps); i <= j < |s.hidIn| && s.hidInSince <= i + 1
    ensures var s := Run(Init(hidInIntervalUs), steps);
            s.hidIn[j].ready >= s.hidIn[i].ready + (j - i) * (s.hidInIntervalUs * NSEC_PER_USEC)
  {
    hide Run, Listed, HidFresh, FeatureServed, Accounted;
    RunInv(hidInIntervalUs, steps);
    var s := Run(Init(hidInIntervalUs), steps);
    SpacedBy(s.hidIn, s.nextHidInReady, s.hidInIntervalUs, i, j);
  }

  // ---------------------------------------------------------------------------------------------
  // Stopping
  // ---------------------------------------------------------------------------------------------

  /** `t` accepted nothing and returned nothing since `s`, and has no new live URB. */
  ghost predicate SameUrbs(s: HcdState, t: HcdState) {
    t.returned == s.returned && t.nextId == s.nextId && t.contexts.Keys == s.contexts.Keys && t.stopping == s.stopping
  }

  lemma CancelReturnsNone(s: HcdState)
    requires Listed(s)
    ensures SameUrbs(s, Disconnect(s))
    ensures SameUrbs(s.(stopping := true), Stop(s))
  {
    hide Listed;
    CancelListed(s, -ESHUTDOWN);
    CancelWhileStopping(s, true, -ESHUTDOWN);
    hide CancelPending;
  }

  lemma CompleteReturnsNone(s: HcdState, report: Report)
    requires Inv(s)
    ensures SameUrbs(s, CompleteReply(s, report))
  {
    hide Inv, Listed, CompleteMatching;
    if report in s.replying && report != [] && !s.stopping {
      CompleteReplyMatches(s, report);
    }
  }

  lemma WriteReturnsNone(s: HcdState, report: Report, now: nat)
    ensures SameUrbs(s, WriteInput(s, report, now))
  {
    hide QueueGiveback, FillHidIn;
    if s.pendingHidIn != [] {
      var logged := s.(written := s.written + [report]);
      FillLeaves(logged, s.pendingHidIn[0], |s.written|, now);
      GivebackLeaves(FillHidIn(logged, s.pendingHidIn[0], |s.written|, now), s.pendingHidIn[0], 0);
    }
  }

  lemma EnqueueReturnsNone(s: HcdState, step: Step)
    requires step.DoLink? || step.DoSchedule? || step.DoPopInput? || step.DoLookUp? || step.DoDefer? || step.DoAsk? || step.DoSettle?
    ensures var t := Next(s, step);
            && t.returned == s.returned && t.stopping == s.stopping
            && ((t.nextId == s.nextId && t.contexts.Keys == s.contexts.Keys) || (step.DoLink? && !s.stopping))
  {
    hide Link, ScheduleUrb, PopInput, LookUp, Defer, Ask, Settle;
    match step
    case DoLink(urb) => LinkLeaves(s, urb);
    case DoSchedule(u, now) => ScheduleLeaves(s, u, now);
    case DoPopInput(u, now) => PopLeaves(s, u, now);
    case DoLookUp(u) => LookUpLeaves(s, u);
    case DoDefer(u) => DeferLeaves(s, u);
    case DoAsk(u, status) => AskLeaves(s, u, status);
    case DoSettle(u) => SettleLeaves(s, u);
  }

  lemma LinkLeaves(s: HcdState, urb: Submission)
    ensures Link(s, urb).returned == s.returned && Link(s, urb).stopping == s.stopping
    ensures s.stopping ==> SameUrbs(s, Link(s, urb))
  {
  }

  lemma LookUpLeaves(s: HcdState, u: UrbId)
    ensures SameUrbs(s, LookUp(s, u))
  {
    hide FillFeature;
  }

  lemma DeferLeaves(s: HcdState, u: UrbId)
    ensures SameUrbs(s, Defer(s, u))
  {
  }

  lemma AskLeaves(s: HcdState, u: UrbId, status: int)
    ensures SameUrbs(s, Ask(s, u, status))
  {
    hide QueueGiveback, SameUrbs;
    GivebackLeaves(s, u, status);
    LeavesSelf(s);
    LeavesAside(s, s, Ask(s, u, status));
    LeavesAside(s, QueueGiveback(s, u, status), Ask(s, u, status));
  }

  lemma LeavesSelf(s: HcdState)
    ensures SameUrbs(s, s)
  {
  }

  lemma LeavesAside(s: HcdState, t: HcdState, r: HcdState)
    requires SameUrbs(s, t)
    ensures r == t.(stages := r.stages, usedFreed := r.usedFreed) ==> SameUrbs(s, r)
  {
  }

  lemma SettleLeaves(s: HcdState, u: UrbId)
    ensures SameUrbs(s, Settle(s, u))
  {
    hide QueueGiveback;
    if u in s.stages && s.stages[u].Decided? {
      GivebackLeaves(s, u, s.stages[u].status);
    }
  }

  lemma ThreadLeaves(s: HcdState, step: Step)
    requires step.DoPick? || step.DoWake? || step.DoStopThread? || step.DoConnect? || step.DoResetUsb? || step.DoSetProfile?
             || step.DoCacheReply?
    ensures SameUrbs(s, Next(s, step))
  {
    hide Pick, Wake, StopThread, Connect, ResetUsb, SetProfile, CacheReply, SameUrbs;
    match step
    case DoPick(now) => PickLeaves(s, now);
    case DoWake(now) => WakeLeaves(s, now);
    case DoStopThread => StopThreadLeaves(s);
    case DoConnect => ConnectLeaves(s);
    case DoResetUsb => ConnectLeaves(s);
    case DoSetProfile(interval) => ProfileLeaves(s, interval);
    case DoCacheReply(report) => CacheLeaves(s, report);
  }

  lemma PickLeaves(s: HcdState, now: nat)
    ensures SameUrbs(s, Pick(s, now))
  {
    hide Pick, SameUrbs, Picked;
    LeavesSelf(s);
    PickIs(s, now);
    if s.completedUrbs != [] && s.completedUrbs[0] in s.contexts {
      PickedLeaves(s, s.completedUrbs[0]);
    }
    SleepLeaves(s, Pick(s, now));
  }

  lemma PickIs(s: HcdState, now: nat)
    ensures var t := Pick(s, now);
            || t == s.(asleepUntil := t.asleepUntil)
            || (s.completedUrbs != [] && s.completedUrbs[0] in s.contexts && t == Picked(s, s.completedUrbs[0]))
  {
    hide Due;
  }

  lemma PickedLeaves(s: HcdState, u: UrbId)
    requires u in s.contexts && s.completedUrbs != []
    ensures SameUrbs(s, Picked(s, u))
  {
  }

  lemma SleepLeaves(s: HcdState, t: HcdState)
    ensures t == s.(asleepUntil := t.asleepUntil) ==> SameUrbs(s, t)
  {
  }

  lemma WakeLeaves(s: HcdState, now: nat)
    ensures SameUrbs(s, Wake(s, now))
  {
  }

  lemma StopThreadLeaves(s: HcdState)
    ensures SameUrbs(s, StopThread(s))
  {
  }

  lemma ConnectLeaves(s: HcdState)
    ensures SameUrbs(s, Connect(s)) && SameUrbs(s, ResetUsb(s))
  {
  }

  lemma ProfileLeaves(s: HcdState, hidInIntervalUs: nat)
    ensures SameUrbs(s, SetProfile(s, hidInIntervalUs))
  {
  }

  lemma CacheLeaves(s: HcdState, report: Report)
    ensures SameUrbs(s, CacheReply(s, report))
  {
  }

  lemma GivebackLeaves(s: HcdState, u: UrbId, status: int)
    ensures SameUrbs(s, QueueGiveback(s, u, status))
  {
    hide Without, InsertPosition, InsertAt;
  }

  lemma FillLeaves(s: HcdState, u: UrbId, index: int, now: nat)
    ensures index >= 0 ==> SameUrbs(s, FillHidIn(s, u, index, now))
  {
    hide Schedule, FillInput;
  }

  lemma PopLeaves(s: HcdState, u: UrbId, now: nat)
    ensures SameUrbs(s, PopInput(s, u, now))
  {
    hide FillHidIn;
    if s.inputPackets != [] && s.written != [] {
      FillLeaves(s.(inputPackets := s.inputPackets[1..]), u, |s.written| - 1, now);
    }
  }

  lemma DequeueLeaves(s: HcdState, u: UrbId, status: int)
    ensures SameUrbs(s, Dequeue(s, u, status))
  {
    hide QueueGiveback;
    if u in s.contexts {
      GivebackLeaves(s.(contexts := s.contexts[u := s.contexts[u].(unlinked := true)]), u, status);
    }
  }

  lemma ScheduleLeaves(s: HcdState, u: UrbId, now: nat)
    ensures SameUrbs(s, ScheduleUrb(s, u, now))
  {
    hide ScheduleIso;
    if At(s, u, Linked) && s.contexts[u].kind.Iso? {
      ScheduleTimes(s, u, s.contexts[u].kind.lengths, s.contexts[u].kind.input, now);
      ScheduleSame(s, u, s.contexts[u].kind.lengths, s.contexts[u].kind.input, now);
    }
  }

  lemma ScheduleSame(s: HcdState, u: UrbId, lengths: seq<nat>, input: bool, now: nat)
    ensures var t := ScheduleIso(s, u, lengths, input, now);
            && t.stages == s.stages && t.pendingHidIn == s.pendingHidIn && t.returned == s.returned
            && t.nextId == s.nextId && t.stopping == s.stopping
  {
    hide DurationUs, PcmBytes, Schedule;
  }

  /** What a step does to the URBs that are live and to those given back. */
  lemma NextReturns(s: HcdState, step: Step)
    requires Inv(s)
    ensures var t := Next(s, step);
            && t.returned == (if step.DoGiveback? && s.giving.Some? then s.returned + [s.giving.value] else s.returned)
            && (s.stopping ==> t.stopping && t.nextId == s.nextId && t.contexts.Keys <= s.contexts.Keys)
  {
    hide Inv, Next;
    if step.DoGiveback? {
      GivebackReturns(s);
      NextIsGiveback(s);
    } else if step.DoLink? || step.DoSchedule? || step.DoPopInput? || step.DoLookUp? || step.DoDefer? || step.DoAsk? || step.DoSettle? {
      EnqueueReturnsNone(s, step);
    } else {
      OthersReturnNone(s, step);
      SameWhenStopping(s, Next(s, step));
    }
  }

  lemma NextIsGiveback(s: HcdState)
    ensures Next(s, DoGiveback) == Giveback(s)
  {
  }

  lemma SameWhenStopping(s: HcdState, t: HcdState)
    requires SameUrbs(s, t) || SameUrbs(s.(stopping := true), t)
    ensures t.returned == s.returned && (s.stopping ==> t.stopping && t.nextId == s.nextId && t.contexts.Keys <= s.contexts.Keys)
  {
  }

  lemma OthersReturnNone(s: HcdState, step: Step)
    requires Inv(s) && !step.DoGiveback?
    requires !(step.DoLink? || step.DoSchedule? || step.DoPopInput? || step.DoLookUp? || step.DoDefer? || step.DoAsk? || step.DoSettle?)
    ensures SameUrbs(s, Next(s, step)) || SameUrbs(s.(stopping := true), Next(s, step))
  {
    InvListed(s);
    hide Inv, Listed, SameUrbs, CompleteReply, WriteInput, Disconnect, Stop, Dequeue, CacheReply, Connect, ResetUsb, SetProfile,
         Pick, Wake, StopThread;
    match step
    case DoWriteInput(report, now) => WriteReturnsNone(s, report, now);
    case DoDisconnect => CancelReturnsNone(s);
    case DoStop => CancelReturnsNone(s);
    case DoCompleteReply(report) => CompleteReturnsNone(s, report);
    case DoDequeue(u, status) => DequeueLeaves(s, u, status);
    case _ => ThreadLeaves(s, step);
  }

  lemma GivebackReturns(s: HcdState)
    ensures var t := Giveback(s);
            && t.returned == (if s.giving.Some? then s.returned + [s.giving.value] else s.returned)
            && t.stopping == s.stopping && t.nextId == s.nextId && t.contexts.Keys <= s.contexts.Keys
  {
  }

  lemma {:induction false} ReturnedGrows(s: HcdState, steps: seq<Step>)
    requires Inv(s) && ValidRun(steps)
    ensures s.returned <= Run(s, steps).returned
  {
    hide Inv, Next;
    if steps != [] {
      var before := steps[..|steps| - 1];
      assert forall i :: 0 <= i < |before| ==> before[i] == steps[i];
      ReturnedGrows(s, before);
      RunKeepsInv(s, before);
      NextReturns(Run(s, before), steps[|steps| - 1]);
    }
  }

  /** Once given back, always given back, and never live again. */
  lemma ReturnedForGood(s: HcdState, steps: seq<Step>)
    requires Inv(s) && ValidRun(steps)
    ensures s.returned <= Run(s, steps).returned
    ensures forall u :: u in s.returned ==> u !in Run(s, steps).contexts
  {
    ReturnedGrows(s, steps);
    RunKeepsInv(s, steps);
    assert Accounted(Run(s, steps));
    assert forall u :: u in s.returned ==> u in Run(s, steps).returned;
  }

  /** A HID IN URB that is linked and has not tried the input buffer yet. */
  ghost predicate LateInput(s: HcdState, u: UrbId) {
    At(s, u, Linked) && s.contexts[u].kind == HidIn
  }

  ghost predicate MakesNoneWait(s: HcdState, t: HcdState, u: UrbId) {
    && (u in t.pendingHidIn ==> u in s.pendingHidIn || LateInput(s, u))
    && (LateInput(t, u) ==> LateInput(s, u))
  }

  /** While stopping, a step moves no URB to the pending list but a late one, and makes none late. */
  lemma NextWhileStopping(s: HcdState, step: Step, u: UrbId)
    requires Inv(s) && s.stopping
    ensures MakesNoneWait(s, Next(s, step), u)
  {
    hide Inv, MakesNoneWait, Link, ScheduleUrb, PopInput, LookUp, Defer, Ask, Settle, CompleteReply, WriteInput, Disconnect, Stop,
         Dequeue, CacheReply, Connect, ResetUsb, SetProfile, Pick, Wake, StopThread, Giveback;
    match step
    case DoSchedule(v, now) => ScheduleTakes(s, v, now, u);
    case DoPopInput(v, now) =>
      InvQuiet(s);
      PopTakes(s, v, now, u);
    case DoLookUp(v) => LookUpTakes(s, v, u);
    case DoDefer(v) => DeferTakes(s, v, u);
    case DoAsk(v, status) => AskTakes(s, v, status, u);
    case DoSettle(v) => SettleTakes(s, v, u);
    case DoDequeue(v, status) => DequeueTakes(s, v, status, u);
    case DoPick(now) => PickTakes(s, now, u);
    case DoGiveback => GivebackEnds(s, u);
    case DoStop =>
      StopTakes(s, u);
      NoneWaits(s, Stop(s), u);
    case _ => OthersTake(s, step, u);
  }

  lemma NoneWaits(s: HcdState, t: HcdState, u: UrbId)
    requires t.pendingHidIn == [] && (LateInput(t, u) <==> LateInput(s, u))
    ensures MakesNoneWait(s, t, u)
  {
  }

  lemma OthersTake(s: HcdState, step: Step, u: UrbId)
    requires s.stopping
    requires step.DoLink? || step.DoWriteInput? || step.DoCacheReply? || step.DoCompleteReply? || step.DoConnect?
             || step.DoDisconnect? || step.DoResetUsb? || step.DoSetProfile? || step.DoWake? || step.DoStopThread?
    ensures MakesNoneWait(s, Next(s, step), u)
  {
    hide MakesNoneWait, Link, WriteInput, CacheReply, CompleteReply, Connect, Disconnect, ResetUsb, SetProfile, Wake, StopThread;
    TakesSelf(s, u);
    match step
    case DoCacheReply(report) =>
      CacheKeepsUrbs(s, report);
      FlagsTake(s, CacheReply(s, report), u);
    case DoCompleteReply(report) =>
      LeavingKeepsUrbs(s, report);
      FlagsTake(s, CompleteReply(s, report), u);
    case DoResetUsb =>
      ResetKeepsUrbs(s);
      FlagsTake(s, ResetUsb(s), u);
    case DoSetProfile(interval) =>
      ProfileKeepsUrbs(s, interval);
      FlagsTake(s, SetProfile(s, interval), u);
    case DoWake(now) =>
      WakeKeepsUrbs(s, now);
      FlagsTake(s, Wake(s, now), u);
    case DoStopThread =>
      StopThreadKeepsUrbs(s);
      FlagsTake(s, StopThread(s), u);
    case _ => IdleWhileStopping(s, step);
  }

  ghost predicate SameUrbLists(s: HcdState, t: HcdState) {
    t.pendingHidIn == s.pendingHidIn && t.contexts == s.contexts && t.stages == s.stages
  }

  lemma IdleWhileStopping(s: HcdState, step: Step)
    requires s.stopping && (step.DoLink? || step.DoWriteInput? || step.DoConnect? || step.DoDisconnect?)
    ensures Next(s, step) == s
  {
  }

  lemma CacheKeepsUrbs(s: HcdState, report: Report)
    ensures SameUrbLists(s, CacheReply(s, report))
  {
  }

  lemma LeavingKeepsUrbs(s: HcdState, report: Report)
    requires s.stopping
    ensures SameUrbLists(s, CompleteReply(s, report))
  {
    hide CompleteMatching;
    if report in s.replying && report != [] {
      assert CompleteReply(s, report) == s.(replying := s.replying - multiset{report});
    } else {
      assert CompleteReply(s, report) == s;
    }
  }

  lemma ResetKeepsUrbs(s: HcdState)
    ensures SameUrbLists(s, ResetUsb(s))
  {
  }

  lemma ProfileKeepsUrbs(s: HcdState, hidInIntervalUs: nat)
    ensures SameUrbLists(s, SetProfile(s, hidInIntervalUs))
  {
  }

  lemma WakeKeepsUrbs(s: HcdState, now: nat)
    ensures SameUrbLists(s, Wake(s, now))
  {
  }

  lemma StopThreadKeepsUrbs(s: HcdState)
    ensures SameUrbLists(s, StopThread(s))
  {
  }

  lemma FlagsTake(s: HcdState, t: HcdState, u: UrbId)
    requires SameUrbLists(s, t)
    ensures MakesNoneWait(s, t, u)
  {
  }

  lemma PickTakes(s: HcdState, now: nat, u: UrbId)
    ensures MakesNoneWait(s, Pick(s, now), u)
  {
    hide Pick, Picked, MakesNoneWait;
    PickIs(s, now);
    SleepTakes(s, Pick(s, now), u);
    if s.completedUrbs != [] && s.completedUrbs[0] in s.contexts {
      PickedTakes(s, s.completedUrbs[0], u);
    }
  }

  lemma SleepTakes(s: HcdState, t: HcdState, u: UrbId)
    ensures t == s.(asleepUntil := t.asleepUntil) ==> MakesNoneWait(s, t, u)
  {
  }

  lemma PickedTakes(s: HcdState, v: UrbId, u: UrbId)
    requires v in s.contexts && s.completedUrbs != []
    ensures MakesNoneWait(s, Picked(s, v), u)
  {
  }

  lemma GivebackEnds(s: HcdState, u: UrbId)
    ensures MakesNoneWait(s, Giveback(s), u)
  {
  }

  lemma DeferTakes(s: HcdState, v: UrbId, u: UrbId)
    ensures MakesNoneWait(s, Defer(s, v), u)
  {
  }

  lemma AskTakes(s: HcdState, v: UrbId, status: int, u: UrbId)
    ensures MakesNoneWait(s, Ask(s, v, status), u)
  {
    hide QueueGiveback, MakesNoneWait;
    if v in s.stages && s.stages[v] == Asking {
      if status != 0 && v in s.contexts {
        GivebackTakes(s, v, status, u);
        UnstagedTakes(s, QueueGiveback(s, v, status), Ask(s, v, status), v, u);
      } else {
        UnstagedTakes(s, s, Ask(s, v, status), v, u);
      }
    } else {
      TakesSelf(s, u);
    }
  }

  lemma UnstagedTakes(s: HcdState, t: HcdState, r: HcdState, v: UrbId, u: UrbId)
    requires MakesNoneWait(s, t, u) || t == s
    ensures r == t.(stages := s.stages - {v}, usedFreed := r.usedFreed) && t.stages == s.stages ==> MakesNoneWait(s, r, u)
  {
  }

  lemma ScheduleTakes(s: HcdState, v: UrbId, now: nat, u: UrbId)
    ensures MakesNoneWait(s, ScheduleUrb(s, v, now), u)
  {
    hide ScheduleIso;
    if At(s, v, Linked) && s.contexts[v].kind.Iso? {
      ScheduleTimes(s, v, s.contexts[v].kind.lengths, s.contexts[v].kind.input, now);
      ScheduleSame(s, v, s.contexts[v].kind.lengths, s.contexts[v].kind.input, now);
    }
  }

  lemma PopTakes(s: HcdState, v: UrbId, now: nat, u: UrbId)
    requires s.inputPackets == []
    ensures MakesNoneWait(s, PopInput(s, v, now), u)
  {
  }

  lemma LookUpTakes(s: HcdState, v: UrbId, u: UrbId)
    ensures MakesNoneWait(s, LookUp(s, v), u)
  {
    if v in s.contexts && s.contexts[v].kind.FeatureGet? {
      if s.contexts[v].kind.reportId in s.featureCache {
        FillKeepsRequest(s.contexts[v], s.featureCache[s.contexts[v].kind.reportId]);
      }
    }
    hide FillFeature;
  }

  lemma FillKeepsRequest(c: UrbContext, report: Report)
    ensures FillFeature(c, report).0.kind == c.kind && FillFeature(c, report).0.phase == c.phase
  {
  }

  lemma SettleTakes(s: HcdState, v: UrbId, u: UrbId)
    ensures MakesNoneWait(s, Settle(s, v), u)
  {
    hide QueueGiveback, MakesNoneWait;
    UnstagedTakes(s, s, Settle(s, v), v, u);
    if v in s.contexts && s.contexts[v].phase == Active && v in s.stages && s.stages[v].Decided? {
      GivebackTakes(s, v, s.stages[v].status, u);
      UnstagedTakes(s, QueueGiveback(s, v, s.stages[v].status), Settle(s, v), v, u);
    } else {
      TakesSelf(s, u);
    }
  }

  lemma TakesSelf(s: HcdState, u: UrbId)
    ensures MakesNoneWait(s, s, u)
  {
  }

  lemma DequeueTakes(s: HcdState, v: UrbId, status: int, u: UrbId)
    ensures MakesNoneWait(s, Dequeue(s, v, status), u)
  {
    hide QueueGiveback, MakesNoneWait;
    TakesSelf(s, u);
    if v in s.contexts && s.contexts[v].phase != Active {
      var marked := s.(contexts := s.contexts[v := s.contexts[v].(unlinked := true)]);
      GivebackTakes(marked, v, status, u);
      MarkedTakes(s, marked, QueueGiveback(marked, v, status), v, u);
      var c := s.contexts[v].(unlinked := true, status := status, readyTime := 0);
      TakesSelf(s.(contexts := s.contexts[v := c]), u);
      MarkedTakes(s, s.(contexts := s.contexts[v := c]), s.(contexts := s.contexts[v := c]), v, u);
      assert s.contexts[v := s.contexts[v].(unlinked := true)][v := c] == s.contexts[v := c];
    }
  }

  lemma MarkedTakes(s: HcdState, m: HcdState, t: HcdState, v: UrbId, u: UrbId)
    requires v in s.contexts && v in m.contexts && m == s.(contexts := s.contexts[v := m.contexts[v]])
    requires m.contexts[v].phase == s.contexts[v].phase && s.contexts[v].phase != Active
    requires MakesNoneWait(m, t, u)
    ensures MakesNoneWait(s, t, u)
  {
  }

  lemma GivebackTakes(s: HcdState, v: UrbId, status: int, u: UrbId)
    ensures MakesNoneWait(s, QueueGiveback(s, v, status), u)
    ensures QueueGiveback(s, v, status).stages == s.stages
  {
    hide QueueGiveback, Without;
    if Waiting(s, v) {
      QueuedAs(s, v, status);
      WithoutMember(s.pendingHidIn, v, u);
    } else {
      NothingQueued(s, v, status);
    }
  }

  lemma {:induction false} WithoutMember(q: seq<UrbId>, v: UrbId, u: UrbId)
    ensures u in Without(q, v) ==> u in q
  {
    if q != [] && q[0] != v {
      WithoutMember(q[1..], v, u);
    }
  }

  lemma StopTakes(s: HcdState, u: UrbId)
    requires Inv(s)
    ensures Stop(s).pendingHidIn == [] && Stop(s).pendingFeatureGet == [] && Stop(s).stopping
    ensures LateInput(Stop(s), u) <==> LateInput(s, u)
    ensures Inv(Stop(s))
  {
    hide Inv, Listed, CancelPending, Advanced, LateInput;
    StopKeepsInv(s);
    InvListed(s);
    CancelLeavesActive(s, u);
    CancelListed(s, -ESHUTDOWN);
    CancelWhileStopping(s, true, -ESHUTDOWN);
    LateAside(s, CancelPending(s, -ESHUTDOWN), u);
    LateFrame(CancelPending(s, -ESHUTDOWN), Stop(s), u);
  }

  lemma LateFrame(s: HcdState, t: HcdState, u: UrbId)
    requires t.contexts == s.contexts && t.stages == s.stages
    ensures LateInput(t, u) <==> LateInput(s, u)
  {
  }

  lemma LateAside(s: HcdState, t: HcdState, u: UrbId)
    requires Advanced(s, t)
    requires u in s.contexts && s.contexts[u].phase == Active ==> u in t.contexts && t.contexts[u] == s.contexts[u]
    ensures LateInput(t, u) <==> LateInput(s, u)
  {
  }

  lemma {:induction false} QueueAllLeaves(s: HcdState, us: seq<UrbId>, status: int, u: UrbId)
    requires u !in us && u in s.contexts
    ensures var t := QueueAll(s, us, status);
            u in t.contexts && t.contexts[u] == s.contexts[u]
    decreases |us|
  {
    if us != [] {
      QueueAllLeaves(QueueGiveback(s, us[0], status), us[1..], status, u);
    }
  }

  /** A cancellation leaves alone what does not wait. */
  lemma CancelLeavesActive(s: HcdState, u: UrbId)
    requires Inv(s)
    ensures var t := CancelPending(s, -ESHUTDOWN);
            u in s.contexts && s.contexts[u].phase == Active ==> u in t.contexts && t.contexts[u] == s.contexts[u]
  {
    InvListed(s);
    hide Inv, Advanced, QueueAll;
    QueueAllListed(s, s.pendingHidIn, -ESHUTDOWN) by {
      assert Placed(s);
    }
    var m := QueueAll(s, s.pendingHidIn, -ESHUTDOWN);
    if u in s.contexts && s.contexts[u].phase == Active {
      NotPending(s, u);
      QueueAllLeaves(s, s.pendingHidIn, -ESHUTDOWN, u);
      NotPending(m, u);
      QueueAllLeaves(m, m.pendingFeatureGet, -ESHUTDOWN, u);
    }
  }

  lemma NotPending(s: HcdState, u: UrbId)
    requires Listed(s) && u in s.contexts && s.contexts[u].phase == Active
    ensures u !in s.pendingHidIn && u !in s.pendingFeatureGet
  {
  }

  /** After the stop nothing is accepted, no URB waits for a feature report, the live URBs only shrink,
      and an URB can come to wait for input only if it was linked before and had not tried the buffer. */
  lemma {:induction false} StoppedStaysQuiet(s: HcdState, steps: seq<Step>)
    requires Inv(s) && s.stopping && ValidRun(steps)
    ensures var t := Run(s, steps);
            && t.stopping && t.nextId == s.nextId && t.contexts.Keys <= s.contexts.Keys
            && t.pendingFeatureGet == []
            && (forall u :: u in t.pendingHidIn ==> u in s.pendingHidIn || LateInput(s, u))
            && (forall u :: LateInput(t, u) ==> LateInput(s, u))
  {
    hide Inv, Next, LateInput;
    if steps != [] {
      var before := steps[..|steps| - 1];
      assert forall i :: 0 <= i < |before| ==> before[i] == steps[i];
      StoppedStaysQuiet(s, before);
      RunKeepsInv(s, before);
      var m, step := Run(s, before), steps[|steps| - 1];
      NextReturns(m, step);
      forall u ensures (u in Run(s, steps).pendingHidIn ==> u in m.pendingHidIn || LateInput(m, u))
                    && (LateInput(Run(s, steps), u) ==> LateInput(m, u))
      {
        NextWhileStopping(m, step, u);
      }
    }
    RunKeepsInv(s, steps);
    InvQuiet(Run(s, steps));
  }

  lemma InvQuiet(s: HcdState)
    requires Inv(s) && s.stopping
    ensures s.pendingFeatureGet == [] && s.inputPackets == []
  {
  }

  /** A stop is final for HID IN exactly if none is late when it comes: a late one waits after it. */
  lemma StopIsFinalExactly(hidInIntervalUs: nat, steps: seq<Step>)
    requires ValidRun(steps)
    ensures var s := Run(Init(hidInIntervalUs), steps);
            (exists rest :: ValidRun(rest) && Run(Stop(s), rest).pendingHidIn != []) <==> exists u :: LateInput(s, u)
  {
    RunInv(hidInIntervalUs, steps);
    var s := Run(Init(hidInIntervalUs), steps);
    hide Inv, Run, Stop;
    if rest :| ValidRun(rest) && Run(Stop(s), rest).pendingHidIn != [] {
      var u := Run(Stop(s), rest).pendingHidIn[0];
      StopTakes(s, u);
      StoppedStaysQuiet(Stop(s), rest);
      assert u in Run(Stop(s), rest).pendingHidIn;
    }
    if u :| LateInput(s, u) {
      StopTakes(s, u);
      LateWaits(Stop(s), u);
    }
  }

  lemma LateWaits(s: HcdState, u: UrbId)
    requires Inv(s) && s.stopping && LateInput(s, u)
    ensures exists rest :: ValidRun(rest) && Run(s, rest).pendingHidIn != []
  {
    hide Inv, Run, PopInput, LateInput;
    InvQuiet(s);
    PopWaits(s, u);
    var rest := [DoPopInput(u, 1)];
    RunStep(s, [], rest[0]);
    assert [] + rest == rest;
    RunNothing(s);
    assert ValidRun(rest) && Run(s, rest).pendingHidIn != [];
  }

  lemma RunNothing(s: HcdState)
    ensures Run(s, []) == s
  {
  }

  lemma PopWaits(s: HcdState, u: UrbId)
    requires s.inputPackets == [] && LateInput(s, u)
    ensures PopInput(s, u, 1).pendingHidIn == s.pendingHidIn + [u]
  {
  }

  /** Stop in any reachable state and whatever follows: once every enqueue has come to its end, the last
      due time has passed and the giveback thread is awake, it returns every URB ever accepted, each
      exactly once, but for late HID IN URBs that no dequeue has taken. */
  lemma StopReturnsEveryUrb(hidInIntervalUs: nat, steps: seq<Step>, rest: seq<Step>, now: nat)
    requires ValidRun(steps) && ValidRun(rest)
    requires var t := Run(Stop(Run(Init(hidInIntervalUs), steps)), rest);
             NoneActive(t) && t.giving.None? && DueFirst(t, now, |t.completedUrbs|) && !AsleepPast(t, now)
    ensures var s := Run(Init(hidInIntervalUs), steps);
            var t := Run(Stop(s), rest);
            var done := Drain(Wake(t, now), now, |t.completedUrbs|);
            && (forall u :: u in done.contexts <==> u in t.pendingHidIn)
            && (forall u :: u in t.pendingHidIn ==> LateInput(s, u))
            && Distinct(done.returned)
            && (forall u: UrbId :: u in done.returned <==> u < done.nextId && u !in t.pendingHidIn)
  {
    hide Inv, Stop, Run, DueFirst, NoneActive, LateInput, Drain;
    var s := Run(Init(hidInIntervalUs), steps);
    var t := Run(Stop(s), rest);
    RunInv(hidInIntervalUs, steps);
    StopKeepsInv(s);
    forall u ensures LateInput(Stop(s), u) ==> LateInput(s, u) {
      StopTakes(s, u);
    }
    StopTakes(s, 0);
    StoppedStaysQuiet(Stop(s), rest);
    RunKeepsInv(Stop(s), rest);
    DrainsEverything(t, now);
    OnlyPendingLeft(Drain(Wake(t, now), now, |t.completedUrbs|));
  }

  lemma DrainsEverything(t: HcdState, now: nat)
    requires Inv(t) && NoneActive(t) && t.giving.None? && DueFirst(t, now, |t.completedUrbs|) && !AsleepPast(t, now)
    ensures var done := Drain(Wake(t, now), now, |t.completedUrbs|);
            && Inv(done) && NoneActive(done) && done.giving.None? && done.completedUrbs == []
            && done.nextId == t.nextId && done.pendingHidIn == t.pendingHidIn && done.pendingFeatureGet == t.pendingFeatureGet
  {
    hide Inv, DueFirst, Drain, Wake, NoneActive;
    var w := Wake(t, now);
    WakeIs(t, now);
    WakeKeepsInv(t, now);
    NoneActiveAside(t, w);
    DueAside(t, w, now, |t.completedUrbs|);
    DrainReturns(w, now, |t.completedUrbs|);
  }

  lemma NoneActiveAside(s: HcdState, t: HcdState)
    requires NoneActive(s) && t.contexts == s.contexts
    ensures NoneActive(t)
  {
  }

  lemma OnlyPendingLeft(s: HcdState)
    requires Inv(s) && NoneActive(s) && s.pendingFeatureGet == [] && s.completedUrbs == [] && s.giving.None?
    ensures forall u :: u in s.contexts <==> u in s.pendingHidIn
    ensures Distinct(s.returned) && forall u: UrbId :: u in s.returned <==> u < s.nextId && u !in s.pendingHidIn
  {
    hide Ordered, AllTruthful, HidFresh, FeatureServed, PacedStreams, Staged;
    forall u ensures u in s.contexts <==> u in s.pendingHidIn {
      assert Placed(s);
    }
  }
}
