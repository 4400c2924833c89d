/** What each region of the host controller does, on the fields: who is served, with what, and when it
    is due. `HcdEffects` has the same for unlinking. */
module HcdRegions {
  import opened VdsTypes
  import opened HcdPacing
  import opened HcdUrbs
  import opened HcdInvariants
  import opened HcdTheorems
  import opened HcdThread
  import opened HcdContexts
  import opened HcdEffects

  /** When a transfer of `durationUs` is due whose direction is busy until `next`. */
  function DueAt(next: nat, now: nat, durationUs: nat): nat {
    Max(next, now) + durationUs * 1000
  }

  /** What the URB's buffer holds of `report` if it could be copied, and otherwise. */
  predicate Copyable(c: UrbContext, report: Report) {
    c.hasBuffer || c.bufferLength == 0 || report == []
  }

  ghost predicate SameLists(s: HcdState, t: HcdState) {
    t.pendingHidIn == s.pendingHidIn && t.pendingFeatureGet == s.pendingFeatureGet && t.completedUrbs == s.completedUrbs
  }

  /** An URB is accepted exactly when the device does not stop, and starts undecided if the endpoint can
      serve it; an audio URB without a buffer fails with -EPIPE. */
  lemma LinkExactly(s: HcdState, urb: Submission)
    requires s.nextId !in s.contexts
    ensures var t, u := Link(s, urb), s.nextId;
            if s.stopping then t == s
            else
              && t.nextId == u + 1 && OthersStay(s, t, u) && SameLists(s, t)
              && u in t.contexts && t.contexts[u].kind == urb.kind && t.contexts[u].phase == Active
              && t.contexts[u].hasBuffer == urb.hasBuffer && t.contexts[u].bufferLength == urb.bufferLength
              && t.contexts[u].readyTime == 0 && !t.contexts[u].unlinked && t.contexts[u].reply.None?
              && u in t.stages
              && t.stages[u] == match urb.kind {
                                  case Immediate(status) => Decided(status)
                                  case Iso(_, _) => if urb.hasBuffer then Linked else Decided(-32)
                                  case _ => Linked
                                }
  {
    hide Without;
  }

  /** An audio transfer is due its duration after the later of now and the due time of the one before it
      in its direction; the other direction does not notice. */
  lemma AudioDueExactly(s: HcdState, u: UrbId, now: nat)
    requires At(s, u, Linked) && s.contexts[u].kind.Iso?
    ensures var t := ScheduleUrb(s, u, now);
            var c := s.contexts[u];
            var due := DueAt(if c.kind.input then s.nextIsoInReady else s.nextIsoOutReady, now, DurationUs(c.kind.lengths, c.kind.input));
            && t.contexts == s.contexts[u := c.(readyTime := due)] && SameLists(s, t)
            && t.stages == s.stages[u := Decided(0)]
            && (if c.kind.input then t.nextIsoInReady == due && t.nextIsoOutReady == s.nextIsoOutReady
                else t.nextIsoOutReady == due && t.nextIsoInReady == s.nextIsoInReady)
  {
    hide DurationUs;
  }

  /** A HID IN URB takes the buffered report, due one interval after the later of now and the report
      before it; without one it waits behind all others. */
  lemma InputTakenExactly(s: HcdState, u: UrbId, now: nat)
    requires Inv(s) && At(s, u, Linked) && s.contexts[u].kind.HidIn?
    ensures var t := PopInput(s, u, now);
            var c := s.contexts[u];
            if s.inputPackets != [] then
              var report, due := s.inputPackets[0], DueAt(s.nextHidInReady, now, s.hidInIntervalUs);
              && t.contexts == s.contexts[u := c.(reply := if Copyable(c, report) then Some(report) else None, readyTime := due)]
              && SameLists(s, t) && t.inputPackets == [] && t.nextHidInReady == due && t.stages == s.stages[u := Decided(0)]
            else
              && t.contexts == s.contexts[u := c.(phase := PendingHidIn)] && t.stages == s.stages - {u}
              && t.pendingHidIn == s.pendingHidIn + [u] && t.pendingFeatureGet == s.pendingFeatureGet
              && t.completedUrbs == s.completedUrbs && t.inputPackets == [] && t.nextHidInReady == s.nextHidInReady
  {
    hide Inv, PopInput;
    InvFresh(s);
    if s.inputPackets != [] {
      BufferIsNewest(s);
      TakenFrom(s, u, now);
    } else {
      PendedAs(s, u, now);
    }
  }

  lemma BufferIsNewest(s: HcdState)
    requires Inv(s) && s.inputPackets != []
    ensures s.written != [] && s.inputPackets == [s.written[|s.written| - 1]] && s.inputPackets[0] != []
  {
  }

  lemma TakenFrom(s: HcdState, u: UrbId, now: nat)
    requires At(s, u, Linked) && s.contexts[u].kind.HidIn? && s.written != []
    requires s.inputPackets == [s.written[|s.written| - 1]] && s.inputPackets[0] != []
    ensures var t := PopInput(s, u, now);
            var c, report, due := s.contexts[u], s.inputPackets[0], DueAt(s.nextHidInReady, now, s.hidInIntervalUs);
            && t.contexts == s.contexts[u := c.(reply := if Copyable(c, report) then Some(report) else None, readyTime := due)]
            && SameLists(s, t) && t.inputPackets == [] && t.nextHidInReady == due && t.stages == s.stages[u := Decided(0)]
  {
    hide PopInput, FillHidIn;
    PoppedAs(s, u, now);
    FilledExactly(s, u, |s.written| - 1, now);
  }

  lemma FilledExactly(s: HcdState, u: UrbId, index: nat, now: nat)
    requires u in s.contexts && index < |s.written| && s.written[index] != []
    ensures var t := FillHidIn(s, u, index, now);
            var c, report, due := s.contexts[u], s.written[index], DueAt(s.nextHidInReady, now, s.hidInIntervalUs);
            && t.contexts == s.contexts[u := c.(reply := if Copyable(c, report) then Some(report) else None, readyTime := due)]
            && t.nextHidInReady == due
            && t == s.(contexts := t.contexts, nextHidInReady := due, hidIn := t.hidIn, delivered := t.delivered)
  {
  }

  /** A written report, of 1 to 64 bytes, goes to the URB that has waited longest, which succeeds with it,
      due one interval after the later of now and the report before it; nobody else notices. If none
      waits the report replaces what is buffered. */
  lemma ReportServesOldest(s: HcdState, report: Report, now: nat)
    requires Inv(s) && forall u :: Lawful(s, u)
    ensures var t := WriteInput(s, report, now);
            if report == [] || |report| > 64 || s.stopping then t == s
            else if s.pendingHidIn != [] then
              var u := s.pendingHidIn[0];
              var due := DueAt(s.nextHidInReady, now, s.hidInIntervalUs);
              && CompletesWith(s, t, u, 0, due) && t.pendingHidIn == s.pendingHidIn[1..]
              && t.contexts[u].reply == (if Copyable(s.contexts[u], report) then Some(report) else None)
              && t.nextHidInReady == due && t.inputPackets == [] && t.stages == s.stages
            else
              && t.contexts == s.contexts && SameLists(s, t) && t.stages == s.stages
              && t.inputPackets == [report] && t.nextHidInReady == s.nextHidInReady
  {
    hide Inv, Lawful, CompletesWith, WriteInput;
    if report == [] || |report| > 64 || s.stopping {
      NothingWritten(s, report, now);
    } else if s.pendingHidIn != [] {
      ServedFirst(s, report, now);
    } else {
      InvFresh(s);
      Buffered(s, report, now);
    }
  }

  lemma NothingWritten(s: HcdState, report: Report, now: nat)
    requires report == [] || |report| > 64 || s.stopping
    ensures WriteInput(s, report, now) == s
  {
  }

  lemma Buffered(s: HcdState, report: Report, now: nat)
    requires ValidInputReport(report) && !s.stopping && s.pendingHidIn == [] && |s.inputPackets| <= 1
    ensures var t := WriteInput(s, report, now);
            && t.contexts == s.contexts && SameLists(s, t) && t.stages == s.stages
            && t.inputPackets == [report] && t.nextHidInReady == s.nextHidInReady
  {
    hide FillHidIn, QueueGiveback;
  }

  lemma ServedFirst(s: HcdState, report: Report, now: nat)
    requires Inv(s) && ValidInputReport(report) && !s.stopping && s.pendingHidIn != []
    ensures var t := WriteInput(s, report, now);
            var u := s.pendingHidIn[0];
            var due := DueAt(s.nextHidInReady, now, s.hidInIntervalUs);
            && CompletesWith(s, t, u, 0, due) && t.pendingHidIn == s.pendingHidIn[1..]
            && t.contexts[u].reply == (if Copyable(s.contexts[u], report) then Some(report) else None)
            && t.nextHidInReady == due && t.inputPackets == [] && t.stages == s.stages
  {
    hide Inv, CompletesWith, OthersStay, FillHidIn, QueueGiveback, Placed;
    InvFresh(s);
    var u, index := s.pendingHidIn[0], |s.written|;
    PendingHidLive(s, u);
    var logged := s.(written := s.written + [report]);
    assert logged.written[index] == report;
    var filled := FillHidIn(logged, u, index, now);
    FilledExactly(logged, u, index, now);
    FilledPlaced(s, filled, u);
    GivebackCompletes(filled, u, 0);
    var t := QueueGiveback(filled, u, 0);
    GivebackLists(filled, u, 0);
    FirstLeaves(s.pendingHidIn);
    CompletesThrough(s, filled, t, u, 0, filled.contexts[u].readyTime);
  }

  lemma FirstLeaves(q: seq<UrbId>)
    requires q != []
    ensures Without(q, q[0]) == q[1..]
  {
  }

  lemma FilledPlaced(s: HcdState, t: HcdState, u: UrbId)
    requires Inv(s) && u in s.contexts && u in t.contexts && t.contexts == s.contexts[u := t.contexts[u]]
    requires t.contexts[u].phase == s.contexts[u].phase && SameLists(s, t) && t.giving == s.giving
    ensures Placed(t)
  {
  }

  /** Completing an URB that was filled before. */
  lemma CompletesThrough(s: HcdState, filled: HcdState, t: HcdState, u: UrbId, status: int, due: nat)
    requires u in s.contexts && u in filled.contexts && filled.contexts == s.contexts[u := filled.contexts[u]]
    requires SameRequest(s.contexts[u], filled.contexts[u]) && SameLists(s, filled)
    requires CompletesWith(filled, t, u, status, due)
    ensures CompletesWith(s, t, u, status, due)
  {
    hide Without;
  }

  /** A feature request finds its report in the cache, and then copies it or fails with -EPIPE; or it is
      remembered as missed. */
  lemma LookUpExactly(s: HcdState, u: UrbId)
    requires Inv(s) && At(s, u, Linked) && s.contexts[u].kind.FeatureGet?
    ensures var t, c := LookUp(s, u), s.contexts[u];
            && SameLists(s, t)
            && if c.kind.reportId in s.featureCache then
                 var report := s.featureCache[c.kind.reportId];
                 if Copyable(c, report) then
                   t.contexts == s.contexts[u := c.(reply := Some(report))] && t.stages == s.stages[u := Decided(0)]
                 else t.contexts == s.contexts && t.stages == s.stages[u := Decided(-32)]
               else t.contexts == s.contexts && t.stages == s.stages[u := Missed]
  {
    CachedNotEmpty(s);
    hide Inv, LookUp;
    var id := s.contexts[u].kind.reportId;
    if id in s.featureCache {
      LookUpHit(s, u, s.featureCache[id]);
    } else {
      LookUpMiss(s, u);
    }
  }

  lemma LookUpHit(s: HcdState, u: UrbId, report: Report)
    requires At(s, u, Linked) && s.contexts[u].kind.FeatureGet? && s.contexts[u].kind.reportId in s.featureCache
    requires report == s.featureCache[s.contexts[u].kind.reportId] && report != []
    ensures var t, c := LookUp(s, u), s.contexts[u];
            && SameLists(s, t)
            && if Copyable(c, report) then
                 t.contexts == s.contexts[u := c.(reply := Some(report))] && t.stages == s.stages[u := Decided(0)]
               else t.contexts == s.contexts && t.stages == s.stages[u := Decided(-32)]
  {
    var c := s.contexts[u];
    assert s.contexts == s.contexts[u := c];
    var (filled, status) := FillFeature(c, report);
    assert if Copyable(c, report) then filled == c.(reply := Some(report)) && status == 0 else filled == c && status == -32;
    hide FillFeature;
  }

  lemma LookUpMiss(s: HcdState, u: UrbId)
    requires At(s, u, Linked) && s.contexts[u].kind.FeatureGet? && s.contexts[u].kind.reportId !in s.featureCache
    ensures var t := LookUp(s, u); SameLists(s, t) && t.contexts == s.contexts && t.stages == s.stages[u := Missed]
  {
  }

  lemma CachedNotEmpty(s: HcdState)
    requires Inv(s)
    ensures forall id :: id in s.featureCache ==> s.featureCache[id] != []
  {
  }

  /** What was missed waits behind all others, or fails with -ESHUTDOWN if the device stops. */
  lemma DeferExactly(s: HcdState, u: UrbId)
    requires At(s, u, Missed) && u in s.marks
    ensures var t, c := Defer(s, u), s.contexts[u];
            if s.stopping then t.contexts == s.contexts && SameLists(s, t) && t.stages == s.stages[u := Decided(-108)]
            else
              && t.contexts == s.contexts[u := c.(phase := PendingFeatureGet)] && t.stages == s.stages[u := Asking]
              && t.pendingFeatureGet == s.pendingFeatureGet + [u] && t.pendingHidIn == s.pendingHidIn
              && t.completedUrbs == s.completedUrbs
  {
  }

  /** A refused request completes the URB with the refusal, due at once, unless it was completed before;
      one that was sent changes nothing. */
  lemma AskExactly(s: HcdState, u: UrbId, status: int)
    requires Inv(s) && Lawful(s, u) && u in s.stages && s.stages[u] == Asking
    ensures var t := Ask(s, u, status);
            && t.stages == s.stages - {u}
            && if status != 0 && u in s.contexts && s.contexts[u].phase != PendingGiveback && s.contexts[u].phase != GivingBack
               then CompletesWith(s, t, u, status, 0)
               else t.contexts == s.contexts && SameLists(s, t)
  {
    hide Inv, QueueGiveback, CompletesWith, Ask;
    AskLeft(s, u, status);
    AskingIsNotActive(s, u);
    if status != 0 && u in s.contexts && Waiting(s, u) {
      InvPlaced(s);
      GivebackCompletes(s, u, status);
      AskQueues(s, u, status);
      CompletesAside(s, QueueGiveback(s, u, status), Ask(s, u, status), u, status, 0);
    } else {
      AskIdle(s, u, status);
    }
  }

  lemma InvPlaced(s: HcdState)
    requires Inv(s)
    ensures Placed(s)
  {
  }

  lemma AskQueues(s: HcdState, u: UrbId, status: int)
    requires u in s.stages && s.stages[u] == Asking && status != 0 && u in s.contexts
    ensures Ask(s, u, status).contexts == QueueGiveback(s, u, status).contexts
    ensures SameLists(QueueGiveback(s, u, status), Ask(s, u, status))
  {
    hide QueueGiveback;
  }

  lemma AskIdle(s: HcdState, u: UrbId, status: int)
    requires u in s.stages && s.stages[u] == Asking && (status == 0 || !Waiting(s, u))
    ensures Ask(s, u, status).contexts == s.contexts && SameLists(s, Ask(s, u, status))
  {
    hide QueueGiveback, Ask;
    if status == 0 || u !in s.contexts {
      AskNotQueued(s, u, status);
    } else {
      NothingQueued(s, u, status);
      AskQueues(s, u, status);
    }
  }

  lemma AskNotQueued(s: HcdState, u: UrbId, status: int)
    requires u in s.stages && s.stages[u] == Asking && (status == 0 || u !in s.contexts)
    ensures Ask(s, u, status).contexts == s.contexts && SameLists(s, Ask(s, u, status))
  {
    hide QueueGiveback;
  }

  lemma CompletesAside(s: HcdState, m: HcdState, t: HcdState, u: UrbId, status: int, due: nat)
    requires CompletesWith(s, m, u, status, due) && t.contexts == m.contexts && SameLists(m, t)
    ensures CompletesWith(s, t, u, status, due)
  {
    hide Without;
  }

  /** A decided URB is completed with what was decided, due when it was scheduled for. */
  lemma SettleExactly(s: HcdState, u: UrbId, status: int)
    requires Inv(s) && At(s, u, Decided(status))
    ensures var t := Settle(s, u);
            && CompletesWith(s, t, u, status, s.contexts[u].readyTime) && t.contexts[u].reply == s.contexts[u].reply
            && t.stages == s.stages - {u}
  {
    hide Inv, QueueGiveback, CompletesWith, Settle;
    InvPlaced(s);
    GivebackCompletes(s, u, status);
    SettleQueues(s, u, status);
    CompletesAside(s, QueueGiveback(s, u, status), Settle(s, u), u, status, s.contexts[u].readyTime);
  }

  lemma SettleQueues(s: HcdState, u: UrbId, status: int)
    requires At(s, u, Decided(status))
    ensures Settle(s, u).contexts == QueueGiveback(s, u, status).contexts
    ensures SameLists(QueueGiveback(s, u, status), Settle(s, u)) && Settle(s, u).stages == s.stages - {u}
  {
    hide QueueGiveback;
  }

  /** Only URB `u` of the two states differs. */
  ghost predicate SameOthers(s: HcdState, t: HcdState, u: UrbId) {
    forall v: UrbId :: v != u && v in s.contexts ==> v in t.contexts && t.contexts[v] == s.contexts[v]
  }

  /** `u` is completed with `status`, due at `due`. */
  ghost predicate CompletedAs(t: HcdState, u: UrbId, status: int, due: nat) {
    u in t.contexts && t.contexts[u].phase == PendingGiveback && t.contexts[u].status == status && t.contexts[u].readyTime == due
  }

  /** What becomes of a submission when no other thread comes between its regions: it is refused when the
      device stops, completed on the spot, timed, or left waiting; and no other URB notices. */
  lemma EnqueueExactly(s: HcdState, urb: Submission, now: nat, frameStatus: int)
    requires Inv(s) && now > 0
    ensures var t, u := Enqueue(s, urb, now, frameStatus), s.nextId;
            if s.stopping then t == s
            else
              && SameOthers(s, t, u)
              && match urb.kind {
                   case Immediate(status) => CompletedAs(t, u, status, 0)
                   case Iso(input, lengths) =>
                     var next := if input then s.nextIsoInReady else s.nextIsoOutReady;
                     if urb.hasBuffer then CompletedAs(t, u, 0, DueAt(next, now, DurationUs(lengths, input)))
                     else CompletedAs(t, u, -32, 0)
                   case HidIn =>
                     if s.inputPackets != [] then CompletedAs(t, u, 0, DueAt(s.nextHidInReady, now, s.hidInIntervalUs))
                     else u in t.contexts && t.contexts[u].phase == PendingHidIn
                   case FeatureGet(id) =>
                     if id in s.featureCache then
                       CompletedAs(t, u, if urb.hasBuffer || urb.bufferLength == 0 then 0 else -32, 0)
                     else if frameStatus != 0 then CompletedAs(t, u, frameStatus, 0)
                     else u in t.contexts && t.contexts[u].phase == PendingFeatureGet
                 }
  {
    if !s.stopping {
      var u, linked := s.nextId, Link(s, urb);
      NextIsFree(s);
      LinkKeepsInv(s, urb);
      LinkExactly(s, urb);
      LinkSession(s, urb);
      hide Inv, Link, Settle, ScheduleUrb, PopInput, LookUp, Defer, Ask, CompletedAs, SameOthers, OthersStay;
      match urb.kind
      case Immediate(status) => SettlesAs(s, linked, u, status);
      case Iso(input, lengths) =>
        if urb.hasBuffer {
          AudioSettles(s, linked, u, now);
        } else {
          NotScheduled(linked, u, now);
          SettlesAs(s, linked, u, -32);
        }
      case HidIn => InputSettles(s, linked, u, now);
      case FeatureGet(id) => FeatureSettles(s, linked, u, frameStatus);
    }
  }

  lemma LinkSession(s: HcdState, urb: Submission)
    requires s.nextId !in s.contexts && !s.stopping
    ensures var t := Link(s, urb);
            && t.inputPackets == s.inputPackets && t.featureCache == s.featureCache && t.hidInIntervalUs == s.hidInIntervalUs
            && t.nextIsoInReady == s.nextIsoInReady && t.nextIsoOutReady == s.nextIsoOutReady && t.nextHidInReady == s.nextHidInReady
            && !t.stopping && SameOthers(s, t, s.nextId)
  {
  }

  lemma SettlesAs(s: HcdState, m: HcdState, u: UrbId, status: int)
    requires Inv(m) && At(m, u, Decided(status)) && SameOthers(s, m, u)
    ensures CompletedAs(Settle(m, u), u, status, m.contexts[u].readyTime) && SameOthers(s, Settle(m, u), u)
  {
    hide Inv, Settle;
    SettleExactly(m, u, status);
  }

  lemma AudioSettles(s: HcdState, m: HcdState, u: UrbId, now: nat)
    requires Inv(m) && At(m, u, Linked) && m.contexts[u].kind.Iso? && SameOthers(s, m, u)
    ensures var c := m.contexts[u];
            var next := if c.kind.input then m.nextIsoInReady else m.nextIsoOutReady;
            var t := Settle(ScheduleUrb(m, u, now), u);
            CompletedAs(t, u, 0, DueAt(next, now, DurationUs(c.kind.lengths, c.kind.input))) && SameOthers(s, t, u)
  {
    hide Inv, Settle, ScheduleUrb, DurationUs, CompletedAs;
    AudioDueExactly(m, u, now);
    ScheduleUrbKeepsInv(m, u, now);
    SettlesAs(s, ScheduleUrb(m, u, now), u, 0);
  }

  lemma InputSettles(s: HcdState, m: HcdState, u: UrbId, now: nat)
    requires Inv(m) && At(m, u, Linked) && m.contexts[u].kind.HidIn? && SameOthers(s, m, u)
    ensures var t := Settle(PopInput(m, u, now), u);
            && SameOthers(s, t, u)
            && if m.inputPackets != [] then CompletedAs(t, u, 0, DueAt(m.nextHidInReady, now, m.hidInIntervalUs))
               else u in t.contexts && t.contexts[u].phase == PendingHidIn
  {
    hide Inv, Settle, PopInput, CompletedAs;
    InputTakenExactly(m, u, now);
    PopInputKeepsInv(m, u, now);
    var p := PopInput(m, u, now);
    if m.inputPackets != [] {
      SettlesAs(s, p, u, 0);
    } else {
      NotSettled(p, u);
    }
  }

  lemma NotSettled(s: HcdState, u: UrbId)
    ensures (u in s.contexts ==> s.contexts[u].phase != Active) ==> Settle(s, u) == s
  {
  }

  lemma FeatureSettles(s: HcdState, m: HcdState, u: UrbId, frameStatus: int)
    requires Inv(m) && At(m, u, Linked) && m.contexts[u].kind.FeatureGet? && m.contexts[u].readyTime == 0 && !m.contexts[u].unlinked
    requires SameOthers(s, m, u) && !m.stopping
    ensures var t := Settle(Ask(Defer(LookUp(m, u), u), u, frameStatus), u);
            var c := m.contexts[u];
            && SameOthers(s, t, u)
            && if c.kind.reportId in m.featureCache then
                 CompletedAs(t, u, if c.hasBuffer || c.bufferLength == 0 then 0 else -32, 0)
               else if frameStatus != 0 then CompletedAs(t, u, frameStatus, 0)
               else u in t.contexts && t.contexts[u].phase == PendingFeatureGet
  {
    hide Inv, Settle, LookUp, Defer, Ask, CompletedAs;
    var looked := LookUp(m, u);
    LookUpExactly(m, u);
    LookUpKeepsInv(m, u);
    CachedNotEmpty(m);
    var c := m.contexts[u];
    if c.kind.reportId in m.featureCache {
      var status := if c.hasBuffer || c.bufferLength == 0 then 0 else -32;
      NotMissed(looked, u);
      NotAsked(looked, u, frameStatus);
      SettlesAs(s, looked, u, status);
    } else {
      MissedIsMarked(m, u);
      AskSettles(s, looked, u, frameStatus);
    }
  }

  lemma NotMissed(s: HcdState, u: UrbId)
    ensures (u in s.stages ==> s.stages[u] != Missed) ==> Defer(s, u) == s
  {
  }

  lemma NotAsked(s: HcdState, u: UrbId, status: int)
    ensures (u in s.stages ==> s.stages[u] != Asking) ==> Ask(s, u, status) == s
  {
  }

  lemma MissedIsMarked(s: HcdState, u: UrbId)
    requires At(s, u, Linked) && s.contexts[u].kind.FeatureGet? && s.contexts[u].kind.reportId !in s.featureCache
    ensures u in LookUp(s, u).marks && LookUp(s, u).stopping == s.stopping
  {
  }

  lemma AskSettles(s: HcdState, m: HcdState, u: UrbId, frameStatus: int)
    requires Inv(m) && At(m, u, Missed) && u in m.marks && m.contexts[u].readyTime == 0 && !m.contexts[u].unlinked
    requires SameOthers(s, m, u) && !m.stopping
    ensures var t := Settle(Ask(Defer(m, u), u, frameStatus), u);
            && SameOthers(s, t, u)
            && if frameStatus != 0 then CompletedAs(t, u, frameStatus, 0)
               else u in t.contexts && t.contexts[u].phase == PendingFeatureGet
  {
    hide Inv, Settle, Defer, Ask;
    var deferred := Defer(m, u);
    DeferExactly(m, u);
    DeferKeepsInv(m, u);
    AskExactly(deferred, u, frameStatus);
    NotSettled(Ask(deferred, u, frameStatus), u);
  }

  // ---------------------------------------------------------------------------------------------
  // Cancelling
  // ---------------------------------------------------------------------------------------------

  /** `d` is `c` completed with `status`, otherwise as it was. */
  ghost predicate Failed(c: UrbContext, d: UrbContext, status: int) {
    && SameRequest(c, d) && d.phase == PendingGiveback && d.status == status
    && d.readyTime == c.readyTime && d.unlinked == c.unlinked && d.reply == c.reply
  }

  lemma {:induction false} QueueAllFails(s: HcdState, us: seq<UrbId>, status: int)
    requires Distinct(us) && forall u :: u in us ==> Waiting(s, u)
    ensures var t := QueueAll(s, us, status);
            && t.contexts.Keys == s.contexts.Keys
            && (forall u :: u in us ==> u in s.contexts && u in t.contexts && Failed(s.contexts[u], t.contexts[u], status))
            && (forall u :: u in s.contexts && u !in us ==> t.contexts[u] == s.contexts[u])
    decreases |us|
  {
    hide QueueGiveback;
    if us != [] {
      var v := us[0];
      var t := QueueGiveback(s, v, status);
      assert Waiting(s, v);
      GivebackChanges(s, v, status);
      forall u | u in us[1..] ensures u in us && u != v && Waiting(t, u) {
        assert u in us;
        assert Waiting(s, u);
      }
      QueueAllFails(t, us[1..], status);
      assert forall u :: u in us <==> u == v || u in us[1..];
    }
  }

  /** A disconnect, or the stop, fails everything that waits with -ESHUTDOWN, due at once, and nothing else;
      buffered input is dropped, and after a disconnect pacing starts afresh. */
  lemma CancelExactly(s: HcdState)
    requires Inv(s) && forall u :: Lawful(s, u)
    ensures s.stopping ==> Disconnect(s) == s
    ensures !s.stopping ==> CutOff(s, Disconnect(s)) && !Disconnect(s).stopping
                            && Disconnect(s).nextIsoOutReady == 0 && Disconnect(s).nextIsoInReady == 0 && Disconnect(s).nextHidInReady == 0
    ensures CutOff(s, Stop(s)) && Stop(s).stopping
  {
    hide Inv, Lawful, CancelPending, CutOff, Advanced;
    InvListed(s);
    CancelFails(s);
    CancelListed(s, -ESHUTDOWN);
    AdvancedFields(s, CancelPending(s, -ESHUTDOWN));
    CancelWhileStopping(s, true, -ESHUTDOWN);
    var c := CancelPending(s, -ESHUTDOWN);
    if !s.stopping {
      CutAside(s, c, Disconnect(s));
    }
    CutAside(s, c, Stop(s));
  }

  ghost predicate CutOff(s: HcdState, t: HcdState) {
    && !t.connected && t.inputPackets == [] && t.pendingHidIn == [] && t.pendingFeatureGet == []
    && t.contexts.Keys == s.contexts.Keys && t.stages == s.stages && t.giving == s.giving && t.returned == s.returned
    && t.featureCache == s.featureCache
    && forall u :: u in s.contexts ==>
                     if s.contexts[u].phase == PendingHidIn || s.contexts[u].phase == PendingFeatureGet then
                       Failed(s.contexts[u], t.contexts[u], -108) && t.contexts[u].readyTime == 0
                     else t.contexts[u] == s.contexts[u]
  }

  lemma CutAside(s: HcdState, c: HcdState, t: HcdState)
    requires t.contexts == c.contexts && SameLists(c, t) && t.stages == c.stages && t.giving == c.giving && t.returned == c.returned
    requires t.featureCache == c.featureCache && !t.connected && t.inputPackets == []
    requires CutOff(s, c.(connected := false, inputPackets := []))
    ensures CutOff(s, t)
  {
  }

  lemma CancelFails(s: HcdState)
    requires Inv(s) && forall u :: Lawful(s, u)
    ensures CutOff(s, CancelPending(s, -ESHUTDOWN).(connected := false, inputPackets := []))
  {
    hide Inv, QueueAll, Advanced;
    InvListed(s);
    InvPlaced(s);
    CancelListed(s, -ESHUTDOWN);
    CancelFailsAll(s);
    forall u | u in s.contexts && (s.contexts[u].phase == PendingHidIn || s.contexts[u].phase == PendingFeatureGet)
      ensures s.contexts[u].readyTime == 0
    {
      assert Lawful(s, u);
    }
    AdvancedFields(s, CancelPending(s, -ESHUTDOWN));
  }

  lemma AdvancedFields(s: HcdState, t: HcdState)
    requires Advanced(s, t)
    ensures t.stages == s.stages && t.giving == s.giving && t.returned == s.returned && t.featureCache == s.featureCache
    ensures t.stopping == s.stopping
  {
  }

  lemma CancelFailsAll(s: HcdState)
    requires Placed(s)
    ensures var t := CancelPending(s, -ESHUTDOWN);
            && t.contexts.Keys == s.contexts.Keys
            && forall u :: u in s.contexts ==>
                             if s.contexts[u].phase == PendingHidIn || s.contexts[u].phase == PendingFeatureGet then
                               Failed(s.contexts[u], t.contexts[u], -ESHUTDOWN)
                             else t.contexts[u] == s.contexts[u]
  {
    hide QueueAll;
    var m := QueueAll(s, s.pendingHidIn, -ESHUTDOWN);
    QueueAllFails(s, s.pendingHidIn, -ESHUTDOWN);
    QueueAllKeepsFeature(s, s.pendingHidIn, -ESHUTDOWN);
    assert forall u :: u in s.pendingFeatureGet ==> u !in s.pendingHidIn && Waiting(m, u);
    QueueAllFails(m, s.pendingFeatureGet, -ESHUTDOWN);
  }

  /** Cancelling the input URBs leaves the feature list as it is. */
  lemma {:induction false} QueueAllKeepsFeature(s: HcdState, us: seq<UrbId>, status: int)
    requires forall u :: u in us ==> u !in s.pendingFeatureGet
    ensures QueueAll(s, us, status).pendingFeatureGet == s.pendingFeatureGet
    decreases |us|
  {
    hide QueueGiveback;
    if us != [] {
      var v := us[0];
      if Waiting(s, v) {
        GivebackLists(s, v, status);
        LeftOut(s.pendingFeatureGet, v);
      } else {
        NothingQueued(s, v, status);
      }
      QueueAllKeepsFeature(QueueGiveback(s, v, status), us[1..], status);
    }
  }

  // ---------------------------------------------------------------------------------------------
  // The thread
  // ---------------------------------------------------------------------------------------------

  /** Awake between rounds, the thread takes the head of the list if that has no due time or is due in
      less than a microsecond; otherwise it sleeps until then, unless it was told to stop. */
  lemma PickExactly(s: HcdState, now: nat)
    requires Inv(s) && s.giving.None? && s.asleepUntil.None? && s.completedUrbs != []
    ensures var t, u := Pick(s, now), s.completedUrbs[0];
            && u in s.contexts
            && var due := s.contexts[u].readyTime;
               if due == 0 || due < now + 1000 then
                 && t.giving == Some(u) && t.completedUrbs == s.completedUrbs[1..] && t.asleepUntil.None?
                 && t.contexts == s.contexts[u := s.contexts[u].(phase := GivingBack)] && t.returned == s.returned
               else
                 && t.contexts == s.contexts && SameLists(s, t) && t.giving.None? && t.returned == s.returned
                 && t.asleepUntil == if s.threadStopped then None else Some(due)
  {
    hide Inv, Pick, Picked;
    CompletedOnce(s);
    var u := s.completedUrbs[0];
    assert u in s.completedUrbs;
    PickedExactly(s, u, now);
    PickedFields(s, u);
  }

  lemma PickedFields(s: HcdState, u: UrbId)
    requires s.completedUrbs != [] && u in s.contexts
    ensures var t := Picked(s, u);
            && t.giving == Some(u) && t.completedUrbs == s.completedUrbs[1..] && t.asleepUntil == s.asleepUntil
            && t.contexts == s.contexts[u := s.contexts[u].(phase := GivingBack)] && t.returned == s.returned
  {
  }

  /** The sleep ends at its time and no earlier, or when the thread is told to stop; and what was taken is
      returned, after which it is live no more. */
  lemma RoundExactly(s: HcdState, now: nat)
    ensures Wake(s, now) == s.(asleepUntil := if s.asleepUntil.Some? && now >= s.asleepUntil.value then None else s.asleepUntil)
    ensures StopThread(s) == s.(asleepUntil := None, threadStopped := true)
    ensures s.giving.Some? ==>
              Giveback(s) == s.(contexts := s.contexts - {s.giving.value}, giving := None, returned := s.returned + [s.giving.value])
    ensures s.giving.None? ==> Giveback(s) == s
  {
  }

  lemma PickedExactly(s: HcdState, u: UrbId, now: nat)
    requires s.giving.None? && s.asleepUntil.None? && s.completedUrbs != [] && u == s.completedUrbs[0] && u in s.contexts
    ensures var t, due := Pick(s, now), s.contexts[u].readyTime;
            if due == 0 || due < now + 1000 then t == Picked(s, u)
            else t == s.(asleepUntil := if s.threadStopped then None else Some(due))
  {
  }

  // ---------------------------------------------------------------------------------------------
  // The feature cache
  // ---------------------------------------------------------------------------------------------

  /** `step` replaces or clears what is cached for `id`: a valid reply of that id, a reset of the USB
      device, or a profile set while it is disconnected. */
  ghost predicate Recaches(s: HcdState, step: Step, id: u8) {
    match step
    case DoCacheReply(report) => 0 < |report| <= 64 && report[0] == id
    case DoResetUsb => true
    case DoSetProfile(_) => !s.connected
    case _ => false
  }

  /** The reply cached at step `k` is the last thing that happened to the entry of `id`. */
  ghost predicate CachedLast(hidInIntervalUs: nat, steps: seq<Step>, k: nat, id: u8, report: Report) {
    && k < |steps| && steps[k] == DoCacheReply(report) && 0 < |report| <= 64 && report[0] == id
    && forall m :: k < m < |steps| ==> !Recaches(Run(Init(hidInIntervalUs), steps[..m]), steps[m], id)
  }

  /** In every reachable state a report is cached if and only if it is the newest valid one of its id that
      came in since the cache was cleared, whole and unchanged. */
  lemma {:induction false} CachedIsNewest(hidInIntervalUs: nat, steps: seq<Step>, id: u8, report: Report)
    requires ValidRun(steps)
    ensures var s := Run(Init(hidInIntervalUs), steps);
            (id in s.featureCache && s.featureCache[id] == report) <==> exists k: nat :: CachedLast(hidInIntervalUs, steps, k, id, report)
    decreases |steps|
  {
    hide Next, Recaches, Run, Init, CachedLast;
    if steps != [] {
      var n := |steps| - 1;
      var before, step := steps[..n], steps[n];
      CachedIsNewest(hidInIntervalUs, before, id, report);
      var s := Run(Init(hidInIntervalUs), before);
      RunFromInit(hidInIntervalUs, before);
      NextCaches(s, step, id);
      LastOfRun(Init(hidInIntervalUs), steps);
      if Recaches(s, step, id) {
        if step == DoCacheReply(report) {
          ItIsLast(hidInIntervalUs, steps, id, report);
        }
        RecachedLast(hidInIntervalUs, steps, id, report);
      } else {
        CachedBefore(hidInIntervalUs, before, step, steps, id, report);
      }
    } else {
      EmptyAtFirst(hidInIntervalUs);
      NoneIsLast(hidInIntervalUs, id, report);
    }
  }

  lemma LastOfRun(s: HcdState, steps: seq<Step>)
    requires steps != []
    ensures Run(s, steps) == Next(Run(s, steps[..|steps| - 1]), steps[|steps| - 1])
  {
  }

  lemma NoneIsLast(hidInIntervalUs: nat, id: u8, report: Report)
    ensures forall k: nat :: !CachedLast(hidInIntervalUs, [], k, id, report)
  {
  }

  lemma EmptyAtFirst(hidInIntervalUs: nat)
    ensures Run(Init(hidInIntervalUs), []).featureCache == map[]
  {
  }

  lemma ItIsLast(hidInIntervalUs: nat, steps: seq<Step>, id: u8, report: Report)
    requires steps != [] && steps[|steps| - 1] == DoCacheReply(report)
    requires Recaches(Run(Init(hidInIntervalUs), steps[..|steps| - 1]), DoCacheReply(report), id)
    ensures CachedLast(hidInIntervalUs, steps, |steps| - 1, id, report)
  {
  }

  /** The last step recaches the entry, so an earlier reply is not the last. */
  lemma RecachedLast(hidInIntervalUs: nat, steps: seq<Step>, id: u8, report: Report)
    requires steps != [] && Recaches(Run(Init(hidInIntervalUs), steps[..|steps| - 1]), steps[|steps| - 1], id)
    ensures forall k: nat :: CachedLast(hidInIntervalUs, steps, k, id, report) ==>
                          k == |steps| - 1 && steps[k] == DoCacheReply(report) && report != []
  {
    hide Run, Init, Recaches;
  }

  lemma CachedBefore(hidInIntervalUs: nat, before: seq<Step>, step: Step, steps: seq<Step>, id: u8, report: Report)
    requires steps == before + [step]
    requires !Recaches(Run(Init(hidInIntervalUs), before), step, id)
    ensures (exists k: nat :: CachedLast(hidInIntervalUs, before, k, id, report))
       <==> (exists k: nat :: CachedLast(hidInIntervalUs, steps, k, id, report))
  {
    hide Run, Init;
    var n := |before|;
    assert steps[..n] == before;
    forall k: nat ensures CachedLast(hidInIntervalUs, before, k, id, report) <==> CachedLast(hidInIntervalUs, steps, k, id, report) {
      forall m | k < m < n
        ensures Run(Init(hidInIntervalUs), before[..m]) == Run(Init(hidInIntervalUs), steps[..m]) && before[m] == steps[m]
      {
        assert steps[..m] == before[..m];
      }
    }
  }

  /** What one step does to the entry of `id`. */
  lemma NextCaches(s: HcdState, step: Step, id: u8)
    requires Inv(s)
    ensures var t := Next(s, step);
            if !Recaches(s, step, id) then
              (id in t.featureCache <==> id in s.featureCache) && (id in s.featureCache ==> t.featureCache[id] == s.featureCache[id])
            else if step.DoCacheReply? then id in t.featureCache && t.featureCache[id] == step.report
            else id !in t.featureCache
  {
    hide Inv, Recaches, Next;
    if step.DoCacheReply? || step.DoResetUsb? || step.DoSetProfile? {
      TheseCache(s, step, id);
    } else {
      OthersCacheNothing(s, step);
      NoneOfThese(s, step, id);
    }
  }

  lemma TheseCache(s: HcdState, step: Step, id: u8)
    requires step.DoCacheReply? || step.DoResetUsb? || step.DoSetProfile?
    ensures var t := Next(s, step);
            if !Recaches(s, step, id) then
              (id in t.featureCache <==> id in s.featureCache) && (id in s.featureCache ==> t.featureCache[id] == s.featureCache[id])
            else if step.DoCacheReply? then id in t.featureCache && t.featureCache[id] == step.report
            else id !in t.featureCache
  {
    match step
    case DoCacheReply(report) => RepliesCache(s, report);
    case DoResetUsb =>
    case DoSetProfile(hidInIntervalUs) => ProfileCaches(s, hidInIntervalUs);
    case _ =>
  }

  lemma RepliesCache(s: HcdState, report: Report)
    ensures CacheReply(s, report).featureCache
         == if 0 < |report| <= 64 then s.featureCache[report[0] := report] else s.featureCache
  {
  }

  lemma ProfileCaches(s: HcdState, hidInIntervalUs: nat)
    ensures SetProfile(s, hidInIntervalUs).featureCache == if s.connected then s.featureCache else map[]
  {
  }

  lemma NoneOfThese(s: HcdState, step: Step, id: u8)
    requires !step.DoCacheReply? && !step.DoResetUsb? && !step.DoSetProfile?
    ensures !Recaches(s, step, id)
  {
  }

  lemma OthersCacheNothing(s: HcdState, step: Step)
    requires Inv(s) && !step.DoCacheReply? && !step.DoResetUsb? && !step.DoSetProfile?
    ensures Next(s, step).featureCache == s.featureCache
  {
    hide Inv;
    if step.DoLink? || step.DoSchedule? || step.DoPopInput? || step.DoLookUp? || step.DoDefer? || step.DoAsk? || step.DoSettle? {
      hide Next;
      StagesCacheNothing(s, step);
    } else if step.DoPick? || step.DoWake? || step.DoStopThread? || step.DoGiveback? || step.DoConnect? {
      hide Next;
      RoundsCacheNothing(s, step);
    } else {
      hide Dequeue, WriteInput, CompleteReply, Disconnect, Stop;
      match step
      case DoDequeue(u, status) => QueueCachesNothing(s, u, status);
      case DoWriteInput(report, now) => WriteCachesNothing(s, report, now);
      case DoCompleteReply(report) => ReplyCachesNothing(s, report);
      case DoDisconnect => CancelCachesNothing(s);
      case DoStop => CancelCachesNothing(s);
    }
  }

  lemma StagesCacheNothing(s: HcdState, step: Step)
    requires step.DoLink? || step.DoSchedule? || step.DoPopInput? || step.DoLookUp? || step.DoDefer? || step.DoAsk? || step.DoSettle?
    ensures Next(s, step).featureCache == s.featureCache
  {
    hide Link, ScheduleUrb, PopInput, LookUp, Defer, Ask, Settle;
    match step
    case DoLink(urb) => EnqueueCachesNothing(s, urb);
    case DoSchedule(u, now) => ScheduleCachesNothing(s, u, now);
    case DoPopInput(u, now) => PopCachesNothing(s, u, now);
    case DoLookUp(u) => LookUpCachesNothing(s, u);
    case DoDefer(u) => DeferCachesNothing(s, u);
    case DoAsk(u, status) => QueueCachesNothing(s, u, status);
    case DoSettle(u) => QueueCachesNothing(s, u, 0);
  }

  lemma RoundsCacheNothing(s: HcdState, step: Step)
    requires step.DoPick? || step.DoWake? || step.DoStopThread? || step.DoGiveback? || step.DoConnect?
    ensures Next(s, step).featureCache == s.featureCache
  {
    hide Pick, Wake, StopThread, Giveback, Connect;
    match step
    case DoPick(now) => PickCachesNothing(s, now);
    case DoWake(now) => WakeCachesNothing(s, now);
    case DoGiveback => GivebackCachesNone(s);
    case DoStopThread => StopThreadCachesNothing(s);
    case DoConnect => ConnectCachesNothing(s);
  }

  lemma EnqueueCachesNothing(s: HcdState, urb: Submission)
    ensures Link(s, urb).featureCache == s.featureCache
  {
  }

  lemma ScheduleCachesNothing(s: HcdState, u: UrbId, now: nat)
    ensures ScheduleUrb(s, u, now).featureCache == s.featureCache
  {
    hide ScheduleIso, ScheduleUrb;
    if At(s, u, Linked) && s.contexts[u].kind.Iso? {
      ScheduledAs(s, u, now);
      ScheduleTimes(s, u, s.contexts[u].kind.lengths, s.contexts[u].kind.input, now);
    } else {
      NotScheduled(s, u, now);
    }
  }

  lemma PopCachesNothing(s: HcdState, u: UrbId, now: nat)
    ensures PopInput(s, u, now).featureCache == s.featureCache
  {
    hide PopInput, FillHidIn;
    if At(s, u, Linked) && s.contexts[u].kind.HidIn? {
      if s.inputPackets != [] && s.written != [] {
        PoppedAs(s, u, now);
        FillCachesNothing(s, u, |s.written| - 1, now);
      } else {
        PendedAs(s, u, now);
      }
    } else {
      NotPopped(s, u, now);
    }
  }

  lemma FillCachesNothing(s: HcdState, u: UrbId, index: nat, now: nat)
    ensures FillHidIn(s, u, index, now).featureCache == s.featureCache
  {
    hide FillInput, Schedule;
  }

  lemma LookUpCachesNothing(s: HcdState, u: UrbId)
    ensures LookUp(s, u).featureCache == s.featureCache
  {
    hide LookUp;
    if At(s, u, Linked) && s.contexts[u].kind.FeatureGet? {
      LookUpKeepsCache(s, u);
    } else {
      LookUpLeft(s, u);
    }
  }

  lemma LookUpKeepsCache(s: HcdState, u: UrbId)
    requires At(s, u, Linked) && s.contexts[u].kind.FeatureGet?
    ensures LookUp(s, u).featureCache == s.featureCache
  {
    hide FillFeature;
  }

  lemma DeferCachesNothing(s: HcdState, u: UrbId)
    ensures Defer(s, u).featureCache == s.featureCache
  {
  }

  lemma GivebackCachesNothing(s: HcdState, u: UrbId, status: int)
    ensures QueueGiveback(s, u, status).featureCache == s.featureCache
  {
    hide InsertPosition, InsertAt, Without;
  }

  lemma QueueCachesNothing(s: HcdState, u: UrbId, status: int)
    ensures Ask(s, u, status).featureCache == s.featureCache
    ensures Settle(s, u).featureCache == s.featureCache
    ensures Dequeue(s, u, status).featureCache == s.featureCache
  {
    hide Ask, Settle, Dequeue;
    AskCachesNothing(s, u, status);
    SettleCachesNothing(s, u);
    DequeueCachesNothing(s, u, status);
  }

  lemma AskCachesNothing(s: HcdState, u: UrbId, status: int)
    ensures Ask(s, u, status).featureCache == s.featureCache
  {
    hide QueueGiveback, Ask;
    GivebackCachesNothing(s, u, status);
    if u in s.stages && s.stages[u] == Asking && status != 0 && u in s.contexts {
      AskFails(s, u, status);
    } else {
      AskElse(s, u, status);
    }
  }

  lemma AskFails(s: HcdState, u: UrbId, status: int)
    requires u in s.stages && s.stages[u] == Asking && status != 0 && u in s.contexts
    ensures Ask(s, u, status).featureCache == QueueGiveback(s, u, status).featureCache
  {
    hide QueueGiveback;
  }

  lemma AskElse(s: HcdState, u: UrbId, status: int)
    requires !(u in s.stages && s.stages[u] == Asking && status != 0 && u in s.contexts)
    ensures Ask(s, u, status).featureCache == s.featureCache
  {
    hide QueueGiveback;
  }

  lemma SettleCachesNothing(s: HcdState, u: UrbId)
    ensures Settle(s, u).featureCache == s.featureCache
  {
    hide QueueGiveback;
    if At(s, u, Linked) || (u in s.stages && s.stages[u].Decided?) {
      GivebackCachesNothing(s, u, if s.stages[u].Decided? then s.stages[u].status else 0);
    }
  }

  lemma DequeueCachesNothing(s: HcdState, u: UrbId, status: int)
    ensures Dequeue(s, u, status).featureCache == s.featureCache
  {
    hide QueueGiveback, Dequeue;
    if u !in s.contexts || s.contexts[u].unlinked || s.contexts[u].phase == GivingBack || s.contexts[u].phase == Active {
      DequeueRefused(s, u, status);
    } else if s.contexts[u].phase == PendingGiveback {
      DequeueInPlace(s, u, status);
    } else {
      DequeueQueues(s, u, status);
      GivebackCachesNothing(s.(contexts := s.contexts[u := s.contexts[u].(unlinked := true)]), u, status);
    }
  }

  lemma WriteCachesNothing(s: HcdState, report: Report, now: nat)
    ensures WriteInput(s, report, now).featureCache == s.featureCache
  {
    hide QueueGiveback, FillHidIn;
    if s.pendingHidIn != [] {
      var u, logged := s.pendingHidIn[0], s.(written := s.written + [report]);
      FillCachesNothing(logged, u, |s.written|, now);
      GivebackCachesNothing(FillHidIn(logged, u, |s.written|, now), u, 0);
    }
  }

  lemma ReplyCachesNothing(s: HcdState, report: Report)
    requires Inv(s)
    ensures CompleteReply(s, report).featureCache == s.featureCache
  {
    hide Inv, CompleteMatching, Advanced;
    if report in s.replying && report != [] && !s.stopping {
      CompleteReplyMatches(s, report);
      hide CompleteReply;
      AdvancedFields(s.(replying := s.replying - multiset{report}, served := s.served + [report[0]]), CompleteReply(s, report));
    }
  }

  lemma CancelCachesNothing(s: HcdState)
    requires Inv(s)
    ensures Disconnect(s).featureCache == s.featureCache && Stop(s).featureCache == s.featureCache
  {
    hide Inv, CancelPending, Advanced;
    InvListed(s);
    CancelListed(s, -ESHUTDOWN);
    AdvancedFields(s, CancelPending(s, -ESHUTDOWN));
    CancelWhileStopping(s, true, -ESHUTDOWN);
  }

  lemma PickCachesNothing(s: HcdState, now: nat)
    ensures Pick(s, now).featureCache == s.featureCache
  {
    hide Pick;
    PickIs(s, now);
  }

  lemma WakeCachesNothing(s: HcdState, now: nat)
    ensures Wake(s, now).featureCache == s.featureCache
  {
  }

  lemma StopThreadCachesNothing(s: HcdState)
    ensures StopThread(s).featureCache == s.featureCache
  {
  }

  lemma ConnectCachesNothing(s: HcdState)
    ensures Connect(s).featureCache == s.featureCache
  {
  }

  lemma GivebackCachesNone(s: HcdState)
    ensures Giveback(s).featureCache == s.featureCache
  {
  }

  /** A profile is only taken while disconnected, and with it the interval of the input reports; a reset
      clears the cache and leaves every URB alone. */
  lemma ProfileExactly(s: HcdState, hidInIntervalUs: nat)
    ensures var t := SetProfile(s, hidInIntervalUs);
            && t.contexts == s.contexts && SameLists(s, t) && t.stages == s.stages && t.connected == s.connected
            && t.hidInIntervalUs == (if s.connected then s.hidInIntervalUs else hidInIntervalUs)
    ensures Connect(s).connected == (s.connected || !s.stopping) && Connect(s).contexts == s.contexts && SameLists(s, Connect(s))
    ensures ResetUsb(s).contexts == s.contexts && SameLists(s, ResetUsb(s)) && ResetUsb(s).stages == s.stages
  {
  }
}
