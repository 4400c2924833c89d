/** The driver itself (module/vds_hcd_core.c): its device structure with its lists and counters, and
    each spin-lock region as a method that updates them in place. `model` is the state of the machine
    in `HcdUrbs` that the fields stand for, together with where each thread stands between its regions;
    every region is proved to take the step of that name, and `Valid` is the invariant proved there. */
module HcdDriver {
  import opened VdsTypes
  import opened HcdPacing
  import opened HcdUrbs
  import opened HcdInvariants
  import opened HcdEffects

  /** What a region that only moves URBs between lists leaves alone. */
  datatype Session = Session(
    giving: Option<UrbId>,
    stopping: bool,
    connected: bool,
    inputPackets: seq<Report>,
    hidInIntervalUs: nat,
    featureCache: map<u8, Report>,
    asleepUntil: Option<nat>,
    threadStopped: bool,
    nextId: UrbId)

  ghost function SessionOf(s: HcdState): Session {
    Session(s.giving, s.stopping, s.connected, s.inputPackets, s.hidInIntervalUs, s.featureCache, s.asleepUntil,
            s.threadStopped, s.nextId)
  }

  ghost predicate SameSession(s: HcdState, t: HcdState) {
    SessionOf(t) == SessionOf(s)
  }

  ghost predicate SameLists(s: HcdState, t: HcdState) {
    && t.pendingHidIn == s.pendingHidIn && t.pendingFeatureGet == s.pendingFeatureGet
    && t.completedUrbs == s.completedUrbs && t.arrivals == s.arrivals
  }

  ghost predicate SameFields(s: HcdState, t: HcdState) {
    && SameSession(s, t) && t.nextIsoOutReady == s.nextIsoOutReady
    && t.nextIsoInReady == s.nextIsoInReady && t.nextHidInReady == s.nextHidInReady
  }

  lemma QueueGivebackFields(s: HcdState, u: UrbId, status: int)
    requires u in s.contexts
    ensures var t := QueueGiveback(s, u, status);
            var c := s.contexts[u];
            && SameFields(s, t)
            && if c.phase == PendingGiveback || c.phase == GivingBack then t == s
               else
                 && t.contexts == s.contexts[u := c.(status := status, phase := PendingGiveback,
                                                     arrival := s.arrivals, queuedTimed := c.readyTime > 0)]
                 && t.pendingHidIn == Without(s.pendingHidIn, u)
                 && t.pendingFeatureGet == Without(s.pendingFeatureGet, u)
                 && t.completedUrbs == InsertAt(s.completedUrbs, InsertPosition(s.completedUrbs, s.contexts, c.readyTime), u)
                 && t.arrivals == s.arrivals + 1
  {
    hide QueueGiveback, Without, InsertPosition, InsertAt;
    if Waiting(s, u) {
      QueuedAs(s, u, status);
    } else {
      NothingQueued(s, u, status);
    }
  }

  lemma FillFields(s: HcdState, u: UrbId, index: nat, now: nat)
    requires u in s.contexts && index < |s.written|
    ensures var t := FillHidIn(s, u, index, now);
            var ready := Base(s.nextHidInReady, now) + s.hidInIntervalUs * NSEC_PER_USEC;
            && SameSession(s, t) && SameLists(s, t) && t.nextHidInReady == ready
            && t.nextIsoOutReady == s.nextIsoOutReady && t.nextIsoInReady == s.nextIsoInReady
            && t.contexts == s.contexts[u := FillInput(s.contexts[u], s.written[index]).(readyTime := ready)]
  {
  }

  /** The fields after the two regions that decide on an URB without queueing it. */
  lemma PopFields(s: HcdState, u: UrbId, now: nat)
    requires At(s, u, Linked) && s.contexts[u].kind == HidIn && s.inputPackets != [] && s.written != []
    ensures var filled := FillHidIn(s.(inputPackets := s.inputPackets[1..]), u, |s.written| - 1, now);
            PopInput(s, u, now) == filled.(stages := s.stages[u := Decided(0)])
    ensures At(PopInput(s, u, now), u, Decided(0))
  {
    hide Schedule;
  }

  lemma PendFields(s: HcdState, u: UrbId, now: nat)
    requires At(s, u, Linked) && s.contexts[u].kind == HidIn && s.inputPackets == []
    ensures var t := PopInput(s, u, now);
            && SameFields(s, t) && t.contexts == s.contexts[u := s.contexts[u].(phase := PendingHidIn)]
            && t.pendingHidIn == s.pendingHidIn + [u] && t.pendingFeatureGet == s.pendingFeatureGet
            && t.completedUrbs == s.completedUrbs && t.arrivals == s.arrivals && u !in t.stages
  {
  }

  lemma ScheduleUrbFields(s: HcdState, u: UrbId, now: nat)
    requires At(s, u, Linked) && s.contexts[u].kind.Iso?
    ensures var timed := ScheduleIso(s, u, s.contexts[u].kind.lengths, s.contexts[u].kind.input, now);
            ScheduleUrb(s, u, now) == timed.(stages := s.stages[u := Decided(0)])
    ensures At(ScheduleUrb(s, u, now), u, Decided(0))
  {
    hide Schedule, DurationUs, PcmBytes;
  }

  lemma LinkFields(s: HcdState, urb: Submission)
    requires !s.stopping
    ensures var t := Link(s, urb);
            && SameFields(s.(nextId := s.nextId + 1), t)
            && t.contexts == s.contexts[s.nextId := UrbContext(urb.kind, urb.hasBuffer, urb.bufferLength, Active, 0, 0, false, None, 0, false)]
            && t.pendingHidIn == s.pendingHidIn && t.pendingFeatureGet == s.pendingFeatureGet
            && t.completedUrbs == s.completedUrbs && t.arrivals == s.arrivals
            && At(t, s.nextId, FirstStage(urb))
  {
  }

  lemma ScheduleFields(s: HcdState, u: UrbId, lengths: seq<nat>, input: bool, now: nat)
    requires u in s.contexts
    ensures var t := ScheduleIso(s, u, lengths, input, now);
            var next := if input then s.nextIsoInReady else s.nextIsoOutReady;
            var ready := Base(next, now) + DurationUs(lengths, input) * NSEC_PER_USEC;
            && SameSession(s, t) && SameLists(s, t) && t.nextHidInReady == s.nextHidInReady
            && t.nextIsoInReady == (if input then ready else s.nextIsoInReady)
            && t.nextIsoOutReady == (if input then s.nextIsoOutReady else ready)
            && t.contexts == s.contexts[u := s.contexts[u].(readyTime := ready)]
  {
    hide DurationUs, PcmBytes;
  }

  /** The fields after the second region of a feature request. */
  lemma DeferFields(s: HcdState, u: UrbId)
    requires At(s, u, Missed) && u in s.marks
    ensures var t := Defer(s, u);
            && SameFields(s, t) && t.pendingHidIn == s.pendingHidIn && t.completedUrbs == s.completedUrbs
            && t.arrivals == s.arrivals
            && if s.stopping then
                 t.contexts == s.contexts && t.pendingFeatureGet == s.pendingFeatureGet && At(t, u, Decided(-ESHUTDOWN))
               else
                 && t.contexts == s.contexts[u := s.contexts[u].(phase := PendingFeatureGet)]
                 && t.pendingFeatureGet == s.pendingFeatureGet + [u] && u in t.stages && t.stages[u] == Asking
  {
  }

  /** The fields after a cancellation is completed by a disconnect or a stop. */
  lemma CutFields(s: HcdState)
    requires !s.stopping
    ensures var c, t := CancelPending(s, -ESHUTDOWN), Disconnect(s);
            && t.contexts == c.contexts && SameLists(c, t)
            && SessionOf(t) == SessionOf(c).(connected := false, inputPackets := [])
            && t.nextIsoOutReady == 0 && t.nextIsoInReady == 0 && t.nextHidInReady == 0
  {
    hide CancelPending;
  }

  lemma StopFields(s: HcdState)
    ensures var c, t := CancelPending(s, -ESHUTDOWN), Stop(s);
            && t.contexts == c.contexts && SameLists(c, t)
            && SessionOf(t) == SessionOf(c).(stopping := true, connected := false, inputPackets := [])
            && t.nextIsoOutReady == c.nextIsoOutReady && t.nextIsoInReady == c.nextIsoInReady
            && t.nextHidInReady == c.nextHidInReady
  {
    CancelWhileStopping(s, true, -ESHUTDOWN);
    hide CancelPending;
  }

  lemma TakeFields(s: HcdState, now: nat)
    requires s.giving.None? && s.asleepUntil.None? && s.completedUrbs != [] && s.completedUrbs[0] in s.contexts
    requires Due(s.contexts[s.completedUrbs[0]], now)
    ensures var t := Pick(s, now);
            var u := s.completedUrbs[0];
            && t.contexts == s.contexts[u := s.contexts[u].(phase := GivingBack)]
            && t.completedUrbs == s.completedUrbs[1..] && SessionOf(t) == SessionOf(s).(giving := Some(u))
            && t.pendingHidIn == s.pendingHidIn && t.pendingFeatureGet == s.pendingFeatureGet && t.arrivals == s.arrivals
            && t.nextIsoOutReady == s.nextIsoOutReady && t.nextIsoInReady == s.nextIsoInReady
            && t.nextHidInReady == s.nextHidInReady
  {
    hide Due;
  }

  lemma SleepFields(s: HcdState, now: nat)
    requires s.giving.None? && s.asleepUntil.None? && s.completedUrbs != [] && s.completedUrbs[0] in s.contexts
    requires !Due(s.contexts[s.completedUrbs[0]], now)
    ensures var t := Pick(s, now);
            var until := if s.threadStopped then None else Some(s.contexts[s.completedUrbs[0]].readyTime);
            && t.contexts == s.contexts && SameLists(s, t) && SessionOf(t) == SessionOf(s).(asleepUntil := until)
            && t.nextIsoOutReady == s.nextIsoOutReady && t.nextIsoInReady == s.nextIsoInReady
            && t.nextHidInReady == s.nextHidInReady
  {
    hide Due;
  }

  /** What a feature reply does to one waiting URB. */
  function CompleteOne(s: HcdState, u: UrbId, report: Report): HcdState
    requires u in s.contexts && report != []
  {
    if s.contexts[u].kind != FeatureGet(report[0]) then s
    else
      var (filled, status) := FillFeature(s.contexts[u], report);
      QueueGiveback(s.(contexts := s.contexts[u := filled]), u, status)
  }

  lemma CompleteOneStep(s: HcdState, us: seq<UrbId>, report: Report)
    requires us != [] && us[0] in s.contexts && report != []
    ensures CompleteMatching(s, us, report) == CompleteMatching(CompleteOne(s, us[0], report), us[1..], report)
    ensures CompleteOne(s, us[0], report).contexts.Keys == s.contexts.Keys
  {
    hide QueueGiveback;
    var (filled, status) := FillFeature(s.contexts[us[0]], report);
    QueueGivebackFields(s.(contexts := s.contexts[us[0] := filled]), us[0], status);
  }

  class VdsHcdDev {
    var contexts: map<UrbId, UrbContext>
    var pendingHidIn: seq<UrbId>
    var pendingFeatureGet: seq<UrbId>
    var completedUrbs: seq<UrbId>
    var giving: Option<UrbId>
    var stopping: bool
    var connected: bool
    var inputPackets: seq<Report>
    var nextIsoOutReady: nat
    var nextIsoInReady: nat
    var nextHidInReady: nat
    var hidInIntervalUs: nat
    var featureCache: map<u8, Report>
    var asleepUntil: Option<nat> // the sleep of the giveback thread
    var threadStopped: bool
    var nextId: UrbId // the next context to be allocated
    var arrivals: nat // numbers the completions as they are queued; read only by statements about order
    ghost var model: HcdState

    ghost function MySession(): Session
      reads this`giving, this`stopping, this`connected, this`inputPackets, this`hidInIntervalUs, this`featureCache,
            this`asleepUntil, this`threadStopped, this`nextId
    {
      Session(giving, stopping, connected, inputPackets, hidInIntervalUs, featureCache, asleepUntil, threadStopped, nextId)
    }

    /** The fields are those of the model. */
    ghost predicate Agrees()
      reads this
    {
      && contexts == model.contexts && pendingHidIn == model.pendingHidIn
      && pendingFeatureGet == model.pendingFeatureGet && completedUrbs == model.completedUrbs
      && arrivals == model.arrivals && MySession() == SessionOf(model)
      && nextIsoOutReady == model.nextIsoOutReady && nextIsoInReady == model.nextIsoInReady
      && nextHidInReady == model.nextHidInReady
    }

    ghost predicate Valid()
      reads this
    {
      Agrees() && Inv(model)
    }

    constructor (hidInIntervalUs: nat)
      ensures Valid() && model == Init(hidInIntervalUs)
    {
      contexts, pendingHidIn, pendingFeatureGet, completedUrbs, giving := map[], [], [], [], None;
      stopping, connected, inputPackets := false, false, [];
      nextIsoOutReady, nextIsoInReady, nextHidInReady := 0, 0, 0;
      this.hidInIntervalUs, featureCache, nextId, arrivals := hidInIntervalUs, map[], 0, 0;
      asleepUntil, threadStopped := None, false;
      model := Init(hidInIntervalUs);
    }

    /** The two searches of the insertion: an untimed URB goes before the first timed one, a timed one
        before the first that is due later. */
    method FindGivebackPosition(readyTime: nat) returns (pos: nat)
      ensures pos == InsertPosition(completedUrbs, contexts, readyTime)
    {
      hide InsertPosition;
      pos := 0;
      if readyTime == 0 {
        while pos < |completedUrbs| && ReadyTime(contexts, completedUrbs[pos]) == 0
          invariant pos <= |completedUrbs|
          invariant forall i :: 0 <= i < pos ==> ReadyTime(contexts, completedUrbs[i]) == 0
        {
          pos := pos + 1;
        }
      } else {
        while pos < |completedUrbs|
              && (ReadyTime(contexts, completedUrbs[pos]) == 0 || ReadyTime(contexts, completedUrbs[pos]) <= readyTime)
          invariant pos <= |completedUrbs|
          invariant forall i :: 0 <= i < pos ==> ReadyTime(contexts, completedUrbs[i]) <= readyTime
        {
          pos := pos + 1;
        }
      }
    }

    method QueueAt(u: UrbId, status: int, pos: nat)
      requires Agrees() && Waiting(model, u)
      requires pos == InsertPosition(completedUrbs, contexts, contexts[u].readyTime)
      modifies this
      ensures Agrees() && model == QueueGiveback(old(model), u, status)
    {
      hide QueueGiveback, InsertAt, InsertPosition, Without, SessionOf, VdsHcdDev.MySession;
      QueueGivebackFields(model, u, status);
      model := QueueGiveback(model, u, status);
      contexts := contexts[u := contexts[u].(status := status, phase := PendingGiveback,
                                             arrival := arrivals, queuedTimed := contexts[u].readyTime > 0)];
      pendingHidIn := Without(pendingHidIn, u);
      pendingFeatureGet := Without(pendingFeatureGet, u);
      completedUrbs := InsertAt(completedUrbs, pos, u);
      arrivals := arrivals + 1;
    }

    method QueueUrbGivebackLocked(u: UrbId, status: int) returns (queued: bool)
      requires Agrees() && u in contexts
      modifies this
      ensures Agrees() && model == QueueGiveback(old(model), u, status)
      ensures queued <==> Waiting(old(model), u)
      ensures queued || model == old(model)
    {
      queued := contexts[u].phase != PendingGiveback && contexts[u].phase != GivingBack;
      if queued {
        var pos := FindGivebackPosition(contexts[u].readyTime);
        hide QueueGiveback;
        QueueAt(u, status, pos);
      }
    }

    /** Queue a list of URBs one after the other, as the two loops of a cancellation do. */
    method QueueEach(us: seq<UrbId>, status: int) returns (wakeGiveback: bool)
      requires Agrees() && forall u :: u in us ==> u in contexts
      modifies this
      ensures Agrees() && model == QueueAll(old(model), us, status)
      ensures wakeGiveback || model == old(model)
    {
      wakeGiveback := false;
      hide QueueGiveback;
      var i := 0;
      while i < |us|
        invariant i <= |us| && Agrees()
        invariant contexts.Keys == old(contexts.Keys)
        invariant QueueAll(model, us[i..], status) == QueueAll(old(model), us, status)
        invariant wakeGiveback || model == old(model)
      {
        QueueGivebackFields(model, us[i], status);
        assert us[i] in us && us[i..][0] == us[i] && us[i..][1..] == us[i + 1..];
        var queued := QueueUrbGivebackLocked(us[i], status);
        wakeGiveback := wakeGiveback || queued;
        i := i + 1;
      }
    }

    method CancelPendingUrbsLocked(status: int) returns (wakeGiveback: bool)
      requires Agrees() && Listed(model) && status != 0
      modifies this
      ensures Agrees() && model == CancelPending(old(model), status)
      ensures wakeGiveback || model == old(model)
    {
      assert Placed(model);
      QueueAllListed(model, pendingHidIn, status);
      hide Listed, QueueAll;
      wakeGiveback := QueueEach(pendingHidIn, status);
      PendingAreLive(model);
      var more := QueueEach(pendingFeatureGet, status);
      wakeGiveback := wakeGiveback || more;
    }

    /** Fill a HID IN URB with a report and schedule it; `index` is the number of that report. */
    method FillAndScheduleHidIn(u: UrbId, report: Report, now: nat, ghost index: nat)
      requires Agrees() && u in contexts && index < |model.written| && report == model.written[index]
      modifies this
      ensures Agrees() && model == FillHidIn(old(model), u, index, now)
    {
      hide FillHidIn, FillInput;
      FillFields(model, u, index, now);
      var base := if nextHidInReady > now then nextHidInReady else now;
      var readyTime := base + hidInIntervalUs * NSEC_PER_USEC;
      contexts := contexts[u := FillInput(contexts[u], report).(readyTime := readyTime)];
      nextHidInReady := readyTime;
      model := FillHidIn(model, u, index, now);
    }

    method CompletePendingInputLocked(report: Report, now: nat) returns (completed: bool)
      requires Agrees() && (forall u :: u in pendingHidIn ==> u in contexts)
      requires model.written != [] && report == model.written[|model.written| - 1]
      modifies this
      ensures Agrees() && completed == (old(pendingHidIn) != [])
      ensures completed ==>
                var u := old(pendingHidIn)[0];
                model == QueueGiveback(FillHidIn(old(model), u, |old(model).written| - 1, now), u, 0)
      ensures !completed ==> model == old(model)
    {
      hide QueueGiveback, FillHidIn, FillInput;
      completed := pendingHidIn != [];
      if completed {
        var u := pendingHidIn[0];
        assert u in pendingHidIn;
        FillFields(model, u, |model.written| - 1, now);
        FillAndScheduleHidIn(u, report, now, |model.written| - 1);
        hide QueueGiveback, FillHidIn;
        var queued := QueueUrbGivebackLocked(u, 0);
      }
    }

    /** The buffer keeps the newest report only. */
    method QueueInputPacketLocked(report: Report)
      requires Agrees()
      modifies this
      ensures Agrees()
      ensures model == old(model).(inputPackets :=
                if old(inputPackets) != [] then old(inputPackets)[|old(inputPackets)| - 1 := report] else [report])
    {
      if inputPackets != [] {
        inputPackets := inputPackets[|inputPackets| - 1 := report];
      } else {
        inputPackets := inputPackets + [report];
      }
      model := model.(inputPackets := inputPackets);
    }

    method WriteInputFrame(report: Report, now: nat) returns (accepted: bool)
      requires Valid()
      modifies this
      ensures Valid() && model == WriteInput(old(model), report, now)
      ensures accepted == (ValidInputReport(report) && !old(stopping))
    {
      accepted := ValidInputReport(report) && !stopping;
      hide Inv, QueueGiveback, FillHidIn;
      WriteInputKeepsInv(model, report, now);
      if accepted {
        ListedAreLive(model);
        model := model.(written := model.written + [report]);
        var completed := CompletePendingInputLocked(report, now);
        if !completed {
          QueueInputPacketLocked(report);
        }
      }
    }

    /** First region of a feature reply, in the USB device. */
    method UpdateFeatureReply(report: Report) returns (accepted: bool)
      requires Valid()
      modifies this
      ensures Valid() && model == CacheReply(old(model), report)
      ensures accepted == ValidInputReport(report)
    {
      accepted := ValidInputReport(report);
      hide Inv;
      CacheReplyKeepsInv(model, report);
      model := CacheReply(model, report);
      if accepted {
        featureCache := featureCache[report[0] := report];
      }
    }

    /** Fill one waiting URB and queue it, unless it waits for another report. */
    method CompleteFeatureReply(u: UrbId, report: Report) returns (wakeGiveback: bool)
      requires Agrees() && u in contexts && report != []
      modifies this
      ensures Agrees() && model == CompleteOne(old(model), u, report)
      ensures wakeGiveback || completedUrbs == old(completedUrbs)
    {
      wakeGiveback := false;
      if contexts[u].kind == FeatureGet(report[0]) {
        var (filled, status) := FillFeature(contexts[u], report);
        contexts := contexts[u := filled];
        model := model.(contexts := contexts);
        hide QueueGiveback;
        wakeGiveback := QueueUrbGivebackLocked(u, status);
      }
    }

    method CompletePendingFeatureRepliesLocked(report: Report) returns (wakeGiveback: bool)
      requires Agrees() && report != [] && forall u :: u in pendingFeatureGet ==> u in contexts
      modifies this
      ensures Agrees() && model == CompleteMatching(old(model), old(pendingFeatureGet), report)
      ensures wakeGiveback || completedUrbs == old(completedUrbs)
    {
      hide CompleteOne;
      var us := pendingFeatureGet;
      wakeGiveback := false;
      var i := 0;
      while i < |us|
        invariant i <= |us| && Agrees()
        invariant contexts.Keys == old(contexts.Keys)
        invariant CompleteMatching(model, us[i..], report) == CompleteMatching(old(model), us, report)
        invariant wakeGiveback || completedUrbs == old(completedUrbs)
      {
        CompleteOneStep(model, us[i..], report);
        assert us[i] in us && us[i..][0] == us[i] && us[i..][1..] == us[i + 1..];
        var queued := CompleteFeatureReply(us[i], report);
        wakeGiveback := wakeGiveback || queued;
        i := i + 1;
      }
    }

    /** Second region of a feature reply, for a report that went through the first. */
    method WriteFeatureReply(report: Report) returns (accepted: bool)
      requires Valid() && report in model.replying && report != []
      modifies this
      ensures Valid() && model == CompleteReply(old(model), report)
      ensures accepted == !old(stopping)
    {
      accepted := !stopping;
      hide Inv, CompleteMatching;
      CompleteReplyKeepsInv(model, report);
      ListedAreLive(model);
      model := model.(replying := model.replying - multiset{report});
      if accepted {
        model := model.(served := model.served + [report[0]]);
        var wakeGiveback := CompletePendingFeatureRepliesLocked(report);
      }
    }

    /** First region of urb_enqueue; `linkStatus` is what the core answers to the attempt to link. */
    method LinkUrb(urb: Submission, linkStatus: int) returns (ret: int, u: UrbId)
      requires Valid()
      modifies this
      ensures Valid() && ret == (if old(stopping) then -ESHUTDOWN else linkStatus) && u == old(nextId)
      ensures model == if ret == 0 then Link(old(model), urb) else old(model)
      ensures ret == 0 ==> At(model, u, FirstStage(urb)) && contexts[u].kind == urb.kind
    {
      hide Inv, Link;
      u := nextId;
      ret := if stopping then -ESHUTDOWN else linkStatus;
      if ret == 0 {
        LinkFields(model, urb);
        LinkKeepsInv(model, urb);
        contexts := contexts[u := UrbContext(urb.kind, urb.hasBuffer, urb.bufferLength, Active, 0, 0, false, None, 0, false)];
        nextId := nextId + 1;
        model := Link(model, urb);
      }
    }

    /** The region of a HID IN URB. */
    method InterruptIn(u: UrbId, now: nat) returns (pending: bool)
      requires Valid() && At(model, u, Linked) && contexts[u].kind == HidIn
      modifies this
      ensures Valid() && model == PopInput(old(model), u, now)
      ensures pending == (old(inputPackets) == [])
      ensures if pending then u !in model.stages else At(model, u, Decided(0))
    {
      hide Inv, FillHidIn, PopInput;
      pending := inputPackets == [];
      PopInputKeepsInv(model, u, now);
      InputBuffered(model);
      if pending {
        PendFields(model, u, now);
        contexts := contexts[u := contexts[u].(phase := PendingHidIn)];
        pendingHidIn := pendingHidIn + [u];
        model := PopInput(model, u, now);
      } else {
        TakeInput(u, now);
      }
    }

    method TakeInput(u: UrbId, now: nat)
      requires Agrees() && At(model, u, Linked) && contexts[u].kind == HidIn
      requires inputPackets != [] && model.written != [] && inputPackets[0] == model.written[|model.written| - 1]
      modifies this
      ensures Agrees() && model == PopInput(old(model), u, now) && At(model, u, Decided(0))
    {
      hide FillHidIn, PopInput;
      PopFields(model, u, now);
      ghost var popped := PopInput(model, u, now);
      var packet := inputPackets[0];
      inputPackets := inputPackets[1..];
      model := model.(inputPackets := inputPackets);
      FillAndScheduleHidIn(u, packet, now, |model.written| - 1);
      model := popped;
    }

    /** The region of an ISO URB. */
    method ScheduleIsoGiveback(u: UrbId, lengths: seq<nat>, input: bool, now: nat)
      requires Valid() && At(model, u, Linked) && contexts[u].kind == Iso(input, lengths)
      modifies this
      ensures Valid() && model == ScheduleUrb(old(model), u, now) && At(model, u, Decided(0))
    {
      hide Inv, ScheduleIso, ScheduleUrb;
      ScheduleUrbFields(model, u, now);
      ScheduleUrbKeepsInv(model, u, now);
      ghost var scheduled := ScheduleUrb(model, u, now);
      ScheduleAt(u, lengths, input, now);
      model := scheduled;
    }

    method ScheduleAt(u: UrbId, lengths: seq<nat>, input: bool, now: nat)
      requires Agrees() && u in contexts
      modifies this
      ensures Agrees() && model == ScheduleIso(old(model), u, lengths, input, now)
    {
      hide ScheduleIso, DurationUs, SessionOf, VdsHcdDev.MySession;
      ScheduleFields(model, u, lengths, input, now);
      var durationUs := ComputeDurationUs(lengths, input);
      var next := if input then nextIsoInReady else nextIsoOutReady;
      var base := if next > now then next else now;
      var readyTime := base + durationUs * NSEC_PER_USEC;
      contexts := contexts[u := contexts[u].(readyTime := readyTime)];
      nextIsoInReady := if input then readyTime else nextIsoInReady;
      nextIsoOutReady := if input then nextIsoOutReady else readyTime;
      model := ScheduleIso(model, u, lengths, input, now);
    }

    /** First region of a feature request: what the cache has is copied into the URB. */
    method CopyCachedFeatureReport(u: UrbId, id: u8) returns (found: bool, status: int)
      requires Valid() && At(model, u, Linked) && contexts[u].kind == FeatureGet(id)
      modifies this
      ensures Valid() && model == LookUp(old(model), u)
      ensures found == (id in old(featureCache))
      ensures if found then At(model, u, Decided(status)) else At(model, u, Missed) && u in model.marks
    {
      hide Inv;
      LookUpKeepsInv(model, u);
      found := id in featureCache;
      status := 0;
      if found {
        var (filled, copyStatus) := FillFeature(contexts[u], featureCache[id]);
        status := copyStatus;
        contexts := contexts[u := filled];
      }
      model := LookUp(model, u);
    }

    /** Second region: on a miss the URB waits for the reply. */
    method DeferFeatureGet(u: UrbId) returns (status: int)
      requires Valid() && At(model, u, Missed) && u in model.marks
      modifies this
      ensures Valid() && model == Defer(old(model), u)
      ensures status == if old(stopping) then -ESHUTDOWN else 0
      ensures if status == 0 then u in model.stages && model.stages[u] == Asking else At(model, u, Decided(status))
    {
      hide Inv, Defer;
      DeferKeepsInv(model, u);
      DeferFields(model, u);
      status := if stopping then -ESHUTDOWN else 0;
      if !stopping {
        contexts := contexts[u := contexts[u].(phase := PendingFeatureGet)];
        pendingFeatureGet := pendingFeatureGet + [u];
      }
      model := Defer(model, u);
    }

    /** Third: if the frame that asks for the report is refused, the URB is completed with the error. The
        driver does not test whether its context is still there; `faulted` says that it was not. */
    method RequestFeature(u: UrbId, frameStatus: int) returns (faulted: bool)
      requires Valid() && u in model.stages && model.stages[u] == Asking
      modifies this
      ensures Valid() && model == Ask(old(model), u, frameStatus) && u !in model.stages
      ensures faulted <==> frameStatus != 0 && u !in old(contexts)
    {
      hide Inv, QueueGiveback;
      AskKeepsInv(model, u, frameStatus);
      ghost var after := Ask(model, u, frameStatus);
      faulted := frameStatus != 0 && u !in contexts;
      if frameStatus != 0 && u in contexts {
        var queued := QueueUrbGivebackLocked(u, frameStatus);
      }
      model := after;
    }

    /** Last region of urb_enqueue. */
    method QueueUrbGiveback(u: UrbId, status: int) returns (queued: bool)
      requires Valid() && At(model, u, Decided(status))
      modifies this
      ensures Valid() && model == Settle(old(model), u) && queued
    {
      hide Inv, QueueGiveback;
      SettleKeepsInv(model, u);
      ghost var before := model;
      queued := QueueUrbGivebackLocked(u, status);
      model := model.(stages := before.stages - {u});
    }

    /** All of urb_enqueue, when no other thread comes between its regions. */
    method UrbEnqueue(urb: Submission, linkStatus: int, frameStatus: int, now: nat) returns (ret: int)
      requires Valid() && now > 0
      modifies this
      ensures Valid() && ret == if old(stopping) then -ESHUTDOWN else linkStatus
      ensures model == if ret == 0 then Enqueue(old(model), urb, now, frameStatus) else old(model)
    {
      hide Inv, PopInput, ScheduleUrb, LookUp, Defer, Ask;
      var u;
      ret, u := LinkUrb(urb, linkStatus);
      if ret == 0 {
        match urb.kind {
          case Immediate(status) =>
            var queued := QueueUrbGiveback(u, status);
          case Iso(input, lengths) =>
            if urb.hasBuffer {
              assert At(model, u, Linked);
              ScheduleIsoGiveback(u, lengths, input, now);
              var queued := QueueUrbGiveback(u, 0);
            } else {
              NothingToSchedule(model, u, now);
              var queued := QueueUrbGiveback(u, -EPIPE);
            }
          case HidIn =>
            var pending := InterruptIn(u, now);
            if !pending {
              var queued := QueueUrbGiveback(u, 0);
            } else {
              LeftIsSettled(model, u);
            }
          case FeatureGet(id) =>
            var found, status := CopyCachedFeatureReport(u, id);
            if found {
              NothingToDefer(model, u);
              NothingToAsk(model, u, frameStatus);
              var queued := QueueUrbGiveback(u, status);
            } else {
              var deferred := DeferFeatureGet(u);
              if deferred == 0 {
                var faulted := RequestFeature(u, frameStatus);
                LeftIsSettled(model, u);
              } else {
                NothingToAsk(model, u, frameStatus);
                var queued := QueueUrbGiveback(u, deferred);
              }
            }
        }
      }
    }

    method UrbDequeue(u: UrbId, status: int) returns (wakeGiveback: bool)
      requires Valid() && status != 0
      requires u in contexts ==> contexts[u].phase != Active // its urb_enqueue is over
      modifies this
      ensures Valid() && model == Dequeue(old(model), u, status)
      ensures wakeGiveback == (old(u in contexts && !contexts[u].unlinked) && old(contexts[u].phase) != GivingBack)
      ensures if wakeGiveback then
                && u in contexts && contexts == old(contexts)[u := contexts[u]]
                && contexts[u].unlinked && contexts[u].phase == PendingGiveback && contexts[u].status == status
                && u in completedUrbs && u !in pendingHidIn && u !in pendingFeatureGet
                && (old(contexts[u].phase) == PendingGiveback ==> contexts[u].readyTime == 0)
              else model == old(model)
    {
      hide Inv, QueueGiveback;
      DequeueKeepsInv(model, u, status);
      DequeuedAs(model, u, status);
      DequeueLists(model, u, status);
      wakeGiveback := false;
      if u in contexts && !contexts[u].unlinked && contexts[u].phase != GivingBack {
        contexts := contexts[u := contexts[u].(unlinked := true)];
        model := model.(contexts := contexts);
        if contexts[u].phase == PendingGiveback {
          contexts := contexts[u := contexts[u].(status := status, readyTime := 0)];
          model := model.(contexts := contexts);
          wakeGiveback := true;
        } else {
          wakeGiveback := QueueUrbGivebackLocked(u, status);
        }
      }
    }

    method CutConnection()
      requires Valid() && !stopping
      modifies this
      ensures Valid() && model == Disconnect(old(model))
    {
      hide Inv, Listed, CancelPending, Disconnect;
      DisconnectKeepsInv(model);
      InvListed(model);
      CutFields(model);
      ghost var after := Disconnect(model);
      var wakeGiveback := CancelPendingUrbsLocked(-ESHUTDOWN);
      connected, inputPackets := false, [];
      nextIsoOutReady, nextIsoInReady, nextHidInReady := 0, 0, 0;
      model := after;
    }

    /** The locked part of a change of connection. */
    method SetConnection(connect: bool) returns (accepted: bool)
      requires Valid()
      modifies this
      ensures Valid() && model == if connect then Connect(old(model)) else Disconnect(old(model))
      ensures accepted == !old(stopping)
    {
      hide Inv;
      accepted := !stopping;
      if connect {
        NextKeepsInv(model, DoConnect);
        model := Connect(model);
        connected := connected || accepted;
      } else if accepted {
        CutConnection();
      }
    }

    /** The USB device forgets the cached reports when its connection ends. */
    method ResetUsbState()
      requires Valid()
      modifies this
      ensures Valid() && model == ResetUsb(old(model))
    {
      hide Inv;
      NextKeepsInv(model, DoResetUsb);
      featureCache := map[];
      model := ResetUsb(model);
    }

    method SetControllerProfile(intervalUs: nat) returns (accepted: bool)
      requires Valid()
      modifies this
      ensures Valid() && model == SetProfile(old(model), intervalUs)
      ensures accepted == !old(connected)
    {
      accepted := !connected;
      hide Inv;
      NextKeepsInv(model, DoSetProfile(intervalUs));
      model := SetProfile(model, intervalUs);
      if accepted {
        featureCache, hidInIntervalUs := map[], intervalUs;
      }
    }

    /** First half of a round of the giveback thread: take the head of the list if it is due, and else
        sleep until it is. */
    method PickCompleted(now: nat) returns (picked: bool)
      requires Valid() && giving.None? && asleepUntil.None?
      modifies this
      ensures Valid() && model == Pick(old(model), now)
      ensures picked <==> giving.Some?
      ensures asleepUntil.Some? <==> old(completedUrbs) != [] && !picked && !threadStopped
    {
      hide Inv, Pick, Due;
      PickKeepsInv(model, now);
      ListedAreLive(model);
      picked := false;
      if completedUrbs != [] {
        assert completedUrbs[0] in completedUrbs;
        picked := Due(contexts[completedUrbs[0]], now);
        if picked {
          TakeHead(now);
        } else {
          SleepForHead(now);
        }
      } else {
        NothingToPick(model, now);
      }
    }

    method TakeHead(now: nat)
      requires Agrees() && giving.None? && asleepUntil.None? && completedUrbs != []
      requires completedUrbs[0] in contexts && Due(contexts[completedUrbs[0]], now)
      modifies this
      ensures Agrees() && model == Pick(old(model), now) && giving.Some? && asleepUntil.None?
    {
      hide Pick, Due;
      TakeFields(model, now);
      var u := completedUrbs[0];
      contexts := contexts[u := contexts[u].(phase := GivingBack)];
      completedUrbs := completedUrbs[1..];
      giving := Some(u);
      model := Pick(model, now);
    }

    method SleepForHead(now: nat)
      requires Agrees() && giving.None? && asleepUntil.None? && completedUrbs != []
      requires completedUrbs[0] in contexts && !Due(contexts[completedUrbs[0]], now)
      modifies this`asleepUntil, this`model
      ensures Agrees() && model == Pick(old(model), now) && (asleepUntil.Some? <==> !threadStopped)
    {
      hide Pick, Due;
      SleepFields(model, now);
      if !threadStopped {
        asleepUntil := Some(contexts[completedUrbs[0]].readyTime);
      }
      model := Pick(model, now);
    }

    /** The thread's timer expires. */
    method EndSleep(now: nat)
      requires Valid() && asleepUntil.Some? && now >= asleepUntil.value
      modifies this
      ensures Valid() && model == Wake(old(model), now) && asleepUntil.None?
    {
      hide Inv;
      WakeKeepsInv(model, now);
      asleepUntil := None;
      model := Wake(model, now);
    }

    method StopGivebackThread()
      requires Valid()
      modifies this
      ensures Valid() && model == StopThread(old(model))
    {
      hide Inv;
      StopThreadKeepsInv(model);
      asleepUntil, threadStopped := None, true;
      model := StopThread(model);
    }

    /** Second half: hand the URB back and free its context. */
    method GivebackPicked() returns (u: UrbId)
      requires Valid() && giving.Some?
      modifies this
      ensures Valid() && model == Giveback(old(model))
      ensures old(giving) == Some(u) && model.returned == old(model).returned + [u]
    {
      hide Inv;
      GivebackKeepsInv(model);
      u := giving.value;
      contexts := contexts - {u};
      giving := None;
      model := Giveback(model);
    }

    method HcdStop()
      requires Valid()
      modifies this
      ensures Valid() && model == Stop(old(model))
      ensures stopping && pendingHidIn == [] && pendingFeatureGet == []
    {
      hide Inv, Listed, CancelPending, Stop;
      StopKeepsInv(model);
      InvListed(model);
      StopFields(model);
      ghost var after := Stop(model);
      var wakeGiveback := CancelPendingUrbsLocked(-ESHUTDOWN);
      // The cancellation does not look at the flag, and nobody sees the order within the region.
      stopping, connected, inputPackets := true, false, [];
      model := after;
    }
  }

  lemma NothingToPick(s: HcdState, now: nat)
    requires s.completedUrbs == []
    ensures Pick(s, now) == s
  {
  }

  /** A region the URB does not need does nothing. */
  lemma NothingToSchedule(s: HcdState, u: UrbId, now: nat)
    requires u in s.stages && s.stages[u] != Linked
    ensures ScheduleUrb(s, u, now) == s
  {
  }

  lemma NothingToAsk(s: HcdState, u: UrbId, frameStatus: int)
    requires u in s.stages && s.stages[u].Decided?
    ensures Ask(s, u, frameStatus) == s
  {
  }

  lemma NothingToDefer(s: HcdState, u: UrbId)
    requires u in s.stages && s.stages[u].Decided?
    ensures Defer(s, u) == s
  {
  }

  lemma LeftIsSettled(s: HcdState, u: UrbId)
    requires u !in s.stages
    ensures Settle(s, u) == s
  {
  }

  lemma PendingAreLive(s: HcdState)
    requires Listed(s)
    ensures forall u :: u in s.pendingFeatureGet ==> u in s.contexts
  {
  }

  lemma ListedAreLive(s: HcdState)
    requires Inv(s)
    ensures forall u :: u in s.pendingHidIn || u in s.pendingFeatureGet || u in s.completedUrbs ==> u in s.contexts
  {
    assert Placed(s);
  }

  lemma InputBuffered(s: HcdState)
    requires Inv(s)
    ensures |s.inputPackets| <= 1
    ensures s.inputPackets != [] ==> s.written != [] && s.inputPackets[0] == s.written[|s.written| - 1]
  {
  }
}
