/** What the regions of the host controller do, stated on the fields: which URB completes, with what
    status and due time, and that every other one stays as it was. */
module HcdEffects {
  import opened VdsTypes
  import opened HcdPacing
  import opened HcdUrbs
  import opened HcdInvariants
  import opened HcdThread
  import opened HcdTheorems
  import opened HcdContexts

  /** Every URB but `u` is as it was, and on each list the others stand in the order they stood in. */
  ghost predicate OthersStay(s: HcdState, t: HcdState, u: UrbId) {
    && (forall v: UrbId :: v != u ==>
          (v in t.contexts <==> v in s.contexts) && (v in s.contexts && v in t.contexts ==> t.contexts[v] == s.contexts[v]))
    && Without(t.pendingHidIn, u) == Without(s.pendingHidIn, u)
    && Without(t.pendingFeatureGet, u) == Without(s.pendingFeatureGet, u)
    && Without(t.completedUrbs, u) == Without(s.completedUrbs, u)
  }

  /** Only contexts and lists changed. */
  ghost predicate OnlyUrbs(s: HcdState, t: HcdState) {
    t == s.(contexts := t.contexts, pendingHidIn := t.pendingHidIn, pendingFeatureGet := t.pendingFeatureGet,
            completedUrbs := t.completedUrbs, arrivals := t.arrivals)
  }

  /** `u` is now completed with `status`, due at `due`, and waits nowhere else. */
  ghost predicate CompletesWith(s: HcdState, t: HcdState, u: UrbId, status: int, due: nat) {
    && u in t.contexts && u in s.contexts && SameRequest(s.contexts[u], t.contexts[u])
    && t.contexts[u].phase == PendingGiveback && t.contexts[u].status == status && t.contexts[u].readyTime == due
    && u in t.completedUrbs && u !in t.pendingHidIn && u !in t.pendingFeatureGet
    && OthersStay(s, t, u)
  }

  lemma {:induction false} WithoutTwice(q: seq<UrbId>, u: UrbId)
    requires Distinct(q)
    ensures Without(Without(q, u), u) == Without(q, u)
  {
    WithoutMembers(q, u);
    WithoutMembers(Without(q, u), u);
  }

  lemma {:induction false} WithoutInserted(q: seq<UrbId>, p: nat, u: UrbId)
    requires p <= |q| && u !in q
    ensures Without(InsertAt(q, p, u), u) == q && u in InsertAt(q, p, u)
  {
    var r := InsertAt(q, p, u);
    assert r[p] == u;
    if p > 0 {
      assert r[0] == q[0] && r[1..] == InsertAt(q[1..], p - 1, u);
      WithoutInserted(q[1..], p - 1, u);
      assert q == [q[0]] + q[1..];
    } else {
      assert r[1..] == q;
    }
  }

  lemma NotOnList(s: HcdState, u: UrbId)
    requires Placed(s) && Waiting(s, u)
    ensures u !in s.completedUrbs
    ensures Distinct(s.pendingHidIn) && Distinct(s.pendingFeatureGet)
  {
  }

  /** Queueing a waiting URB completes it and touches no other. */
  lemma GivebackCompletes(s: HcdState, u: UrbId, status: int)
    requires Placed(s) && Waiting(s, u)
    ensures var t := QueueGiveback(s, u, status);
            && CompletesWith(s, t, u, status, s.contexts[u].readyTime) && OnlyUrbs(s, t)
            && t.contexts[u].reply == s.contexts[u].reply && t.contexts[u].unlinked == s.contexts[u].unlinked
  {
    hide Placed, QueueGiveback, Without, InsertAt, InsertPosition;
    NotOnList(s, u);
    GivebackLists(s, u, status);
    GivebackOnlyUrbs(s, u, status);
    GivebackChanges(s, u, status);
    WithoutTwice(s.pendingHidIn, u);
    WithoutTwice(s.pendingFeatureGet, u);
    WithoutMembers(s.pendingHidIn, u);
    WithoutMembers(s.pendingFeatureGet, u);
    WithoutInserted(s.completedUrbs, InsertPosition(s.completedUrbs, s.contexts, s.contexts[u].readyTime), u);
    LeftOut(s.completedUrbs, u);
  }

  lemma GivebackLists(s: HcdState, u: UrbId, status: int)
    requires Waiting(s, u)
    ensures var t := QueueGiveback(s, u, status);
            && t.pendingHidIn == Without(s.pendingHidIn, u) && t.pendingFeatureGet == Without(s.pendingFeatureGet, u)
            && t.completedUrbs
               == InsertAt(s.completedUrbs, InsertPosition(s.completedUrbs, s.contexts, s.contexts[u].readyTime), u)
  {
    hide Without, InsertAt, InsertPosition;
  }

  lemma GivebackOnlyUrbs(s: HcdState, u: UrbId, status: int)
    ensures OnlyUrbs(s, QueueGiveback(s, u, status))
  {
    hide Without, InsertAt, InsertPosition;
  }

  lemma {:induction false} LeftOut(q: seq<UrbId>, u: UrbId)
    requires u !in q
    ensures Without(q, u) == q
  {
    if q != [] {
      LeftOut(q[1..], u);
      assert q == [q[0]] + q[1..];
    }
  }

  // ---------------------------------------------------------------------------------------------
  // Unlinking
  // ---------------------------------------------------------------------------------------------

  /** What is not decided has no due time; what is unlinked is completed, due at once, and has failed. */
  ghost predicate Lawful(s: HcdState, u: UrbId) {
    u in s.contexts ==>
      var c := s.contexts[u];
      && (c.unlinked ==> (c.phase == PendingGiveback || c.phase == GivingBack) && c.readyTime == 0 && c.status != 0)
      && (c.phase == PendingHidIn || c.phase == PendingFeatureGet ==> c.readyTime == 0)
      && (c.phase == Active && !(u in s.stages && s.stages[u].Decided?) ==> c.readyTime == 0)
  }

  /** `u` is as it was, or was completed; an URB inside urb_enqueue keeps its stage. */
  ghost predicate Moved(s: HcdState, t: HcdState, u: UrbId) {
    u in t.contexts ==>
      && u in s.contexts
      && (t.contexts[u] == s.contexts[u]
          || (Waiting(s, u) && t.contexts[u].phase == PendingGiveback && t.contexts[u].unlinked == s.contexts[u].unlinked))
      && (t.contexts[u].phase == Active ==> (u in t.stages <==> u in s.stages) && (u in s.stages ==> t.stages[u] == s.stages[u]))
  }

  lemma MovedIsLawful(s: HcdState, t: HcdState, u: UrbId)
    requires Lawful(s, u) && Moved(s, t, u)
    ensures Lawful(t, u)
  {
  }

  lemma MovedTwice(s: HcdState, t: HcdState, r: HcdState, u: UrbId)
    requires Moved(s, t, u) && Moved(t, r, u)
    ensures Moved(s, r, u)
  {
  }

  lemma MovedAside(s: HcdState, t: HcdState, u: UrbId)
    requires t.contexts == s.contexts && t.stages == s.stages
    ensures Moved(s, t, u)
  {
  }

  lemma QueueMoves(s: HcdState, v: UrbId, status: int, u: UrbId)
    ensures Moved(s, QueueGiveback(s, v, status), u)
  {
    hide QueueGiveback, Without, InsertAt, InsertPosition;
    if Waiting(s, v) {
      QueuedAs(s, v, status);
    } else {
      NothingQueued(s, v, status);
    }
  }

  lemma {:induction false} QueueAllMoves(s: HcdState, us: seq<UrbId>, status: int, u: UrbId)
    ensures Moved(s, QueueAll(s, us, status), u)
    decreases |us|
  {
    hide Moved, QueueGiveback;
    if us == [] {
      MovedAside(s, s, u);
    } else {
      var t := QueueGiveback(s, us[0], status);
      QueueMoves(s, us[0], status, u);
      QueueAllMoves(t, us[1..], status, u);
      MovedTwice(s, t, QueueAll(t, us[1..], status), u);
    }
  }

  lemma CancelMoves(s: HcdState, status: int, u: UrbId)
    ensures Moved(s, CancelPending(s, status), u)
  {
    hide Moved, QueueAll;
    var t := QueueAll(s, s.pendingHidIn, status);
    QueueAllMoves(s, s.pendingHidIn, status, u);
    QueueAllMoves(t, t.pendingFeatureGet, status, u);
    MovedTwice(s, t, QueueAll(t, t.pendingFeatureGet, status), u);
  }

  /** Filling and queueing one waiting URB. */
  lemma FinishMoves(s: HcdState, v: UrbId, filled: UrbContext, status: int, u: UrbId)
    requires Waiting(s, v) && filled.phase == s.contexts[v].phase && filled.unlinked == s.contexts[v].unlinked
    ensures Moved(s, Finish(s, v, filled, status), u)
  {
    hide QueueGiveback, Without, InsertAt, InsertPosition;
    QueuedAs(s.(contexts := s.contexts[v := filled]), v, status);
  }

  lemma FillKeepsMark(c: UrbContext, report: Report)
    ensures FillFeature(c, report).0.unlinked == c.unlinked && FillFeature(c, report).0.phase == c.phase
    ensures FillFeature(c, report).0.readyTime == c.readyTime
  {
  }

  lemma {:induction false} MatchingMoves(s: HcdState, us: seq<UrbId>, report: Report, u: UrbId)
    requires report != [] && Distinct(us) && forall v :: v in us ==> Waiting(s, v)
    ensures Moved(s, CompleteMatching(s, us, report), u)
    decreases |us|
  {
    hide Moved, QueueGiveback, FillFeature;
    if us == [] {
      MovedAside(s, s, u);
    } else if us[0] !in s.contexts || s.contexts[us[0]].kind != FeatureGet(report[0]) {
      MatchingMoves(s, us[1..], report, u);
    } else {
      var filled, status := FillFeature(s.contexts[us[0]], report).0, FillFeature(s.contexts[us[0]], report).1;
      FillKeepsMark(s.contexts[us[0]], report);
      var t := Finish(s, us[0], filled, status);
      FinishMoves(s, us[0], filled, status, u);
      forall v | v in us[1..] ensures Waiting(t, v) {
        assert v in us && v != us[0];
        FinishKeepsWaiting(s, us[0], filled, status, v);
      }
      MatchingMoves(t, us[1..], report, u);
      MovedTwice(s, t, CompleteMatching(t, us[1..], report), u);
    }
  }

  lemma FinishKeepsWaiting(s: HcdState, v: UrbId, filled: UrbContext, status: int, u: UrbId)
    requires Waiting(s, u) && Waiting(s, v) && u != v && filled.phase == s.contexts[v].phase
    ensures Waiting(Finish(s, v, filled, status), u)
  {
    hide QueueGiveback, Without, InsertAt, InsertPosition;
    QueuedAs(s.(contexts := s.contexts[v := filled]), v, status);
  }

  /** A completed URB keeps its status, due time and data until it is given back. */
  ghost predicate Keeps(s: HcdState, t: HcdState, u: UrbId) {
    u in s.contexts && !Waiting(s, u) && u in t.contexts ==>
      !Waiting(t, u) && t.contexts[u] == s.contexts[u].(phase := t.contexts[u].phase)
  }

  ghost predicate KeepsLaw(s: HcdState, t: HcdState, u: UrbId) {
    (Lawful(s, u) ==> Lawful(t, u)) && Keeps(s, t, u)
  }

  lemma MovedKeeps(s: HcdState, t: HcdState, u: UrbId)
    requires Moved(s, t, u)
    ensures KeepsLaw(s, t, u)
  {
  }

  lemma SameKeeps(s: HcdState, t: HcdState, u: UrbId)
    requires t.contexts == s.contexts && t.stages == s.stages
    ensures KeepsLaw(s, t, u)
  {
  }

  lemma LinkKeeps(s: HcdState, urb: Submission, u: UrbId)
    requires s.nextId !in s.contexts
    ensures KeepsLaw(s, Link(s, urb), u)
  {
    hide FirstStage;
  }

  lemma ScheduleKeeps(s: HcdState, v: UrbId, now: nat, u: UrbId)
    ensures KeepsLaw(s, ScheduleUrb(s, v, now), u)
  {
    hide ScheduleIso, ScheduleUrb;
    if At(s, v, Linked) && s.contexts[v].kind.Iso? {
      ScheduledAs(s, v, now);
      ScheduleTimes(s, v, s.contexts[v].kind.lengths, s.contexts[v].kind.input, now);
    } else {
      NotScheduled(s, v, now);
    }
  }

  lemma PopKeeps(s: HcdState, v: UrbId, now: nat, u: UrbId)
    ensures KeepsLaw(s, PopInput(s, v, now), u)
  {
    hide FillHidIn, PopInput, FillInput, Lawful, Keeps;
    if At(s, v, Linked) && s.contexts[v].kind.HidIn? {
      if s.inputPackets != [] && s.written != [] {
        PoppedAs(s, v, now);
        FilledAs(s, v, |s.written| - 1, now);
        FillInputKeeps(s.contexts[v], s.written[|s.written| - 1]);
        DecidedKeeps(s, PopInput(s, v, now), v, u);
      } else {
        PendedAs(s, v, now);
        PendedKeeps(s, PopInput(s, v, now), v, u);
      }
    } else {
      NotPopped(s, v, now);
      SameKeeps(s, PopInput(s, v, now), u);
    }
  }

  lemma FillInputKeeps(c: UrbContext, report: Report)
    ensures FillInput(c, report).unlinked == c.unlinked && FillInput(c, report).phase == c.phase
    ensures FillInput(c, report).readyTime == c.readyTime
  {
  }

  lemma PendedAs(s: HcdState, v: UrbId, now: nat)
    requires At(s, v, Linked) && s.contexts[v].kind.HidIn? && !(s.inputPackets != [] && s.written != [])
    ensures var t := PopInput(s, v, now);
            && t.contexts == s.contexts[v := s.contexts[v].(phase := PendingHidIn)] && t.stages == s.stages - {v}
            && t.pendingHidIn == s.pendingHidIn + [v]
            && t == s.(contexts := t.contexts, pendingHidIn := t.pendingHidIn, stages := t.stages)
  {
  }

  lemma NotPopped(s: HcdState, v: UrbId, now: nat)
    ensures !(At(s, v, Linked) && s.contexts[v].kind.HidIn?) ==> PopInput(s, v, now) == s
  {
  }

  /** An URB inside urb_enqueue was decided. */
  lemma DecidedKeeps(s: HcdState, t: HcdState, v: UrbId, u: UrbId)
    requires v in s.contexts && s.contexts[v].phase == Active && v in t.contexts
    requires t.contexts == s.contexts[v := t.contexts[v]]
    requires t.contexts[v].phase == Active && t.contexts[v].unlinked == s.contexts[v].unlinked
    requires v in t.stages && t.stages[v].Decided? && t.stages == s.stages[v := t.stages[v]]
    ensures KeepsLaw(s, t, u)
  {
  }

  /** An URB inside urb_enqueue came to wait, or to a stage before the decision. */
  lemma PendedKeeps(s: HcdState, t: HcdState, v: UrbId, u: UrbId)
    requires v in s.contexts && s.contexts[v].phase == Active && v in s.stages && !s.stages[v].Decided? && v in t.contexts
    requires t.contexts == s.contexts[v := s.contexts[v].(phase := t.contexts[v].phase)]
    requires t.contexts[v].phase != PendingGiveback && t.contexts[v].phase != GivingBack
    requires forall x :: x != v ==> (x in t.stages <==> x in s.stages) && (x in s.stages && x in t.stages ==> t.stages[x] == s.stages[x])
    ensures KeepsLaw(s, t, u)
  {
  }

  lemma LookUpKeeps(s: HcdState, v: UrbId, u: UrbId)
    ensures KeepsLaw(s, LookUp(s, v), u)
  {
    hide FillFeature, Lawful, Keeps, LookUp;
    var t := LookUp(s, v);
    LookUpLeft(s, v);
    if At(s, v, Linked) && s.contexts[v].kind.FeatureGet? {
      if s.contexts[v].kind.reportId in s.featureCache {
        DecidedKeeps(s, t, v, u);
      } else {
        assert s.contexts == s.contexts[v := s.contexts[v].(phase := t.contexts[v].phase)];
        PendedKeeps(s, t, v, u);
      }
    } else {
      SameKeeps(s, t, u);
    }
  }

  lemma LookUpLeft(s: HcdState, v: UrbId)
    ensures var t := LookUp(s, v);
            if !(At(s, v, Linked) && s.contexts[v].kind.FeatureGet?) then t == s
            else if s.contexts[v].kind.reportId in s.featureCache then
              && v in t.contexts && t.contexts == s.contexts[v := t.contexts[v]]
              && t.contexts[v].phase == Active && t.contexts[v].unlinked == s.contexts[v].unlinked
              && v in t.stages && t.stages[v].Decided? && t.stages == s.stages[v := t.stages[v]]
            else t.contexts == s.contexts && t.stages == s.stages[v := Missed]
  {
    hide FillFeature;
    if v in s.contexts && s.contexts[v].kind.FeatureGet? && s.contexts[v].kind.reportId in s.featureCache {
      FillKeepsMark(s.contexts[v], s.featureCache[s.contexts[v].kind.reportId]);
    }
  }

  lemma DeferKeeps(s: HcdState, v: UrbId, u: UrbId)
    ensures KeepsLaw(s, Defer(s, v), u)
  {
    hide Lawful, Keeps;
    var t := Defer(s, v);
    if !At(s, v, Missed) || v !in s.marks {
      SameKeeps(s, t, u);
    } else if s.stopping {
      assert t.contexts == s.contexts && s.contexts == s.contexts[v := t.contexts[v]];
      DecidedKeeps(s, t, v, u);
    } else {
      PendedKeeps(s, t, v, u);
    }
  }

  /** Leaving urb_enqueue after the URB was completed. */
  lemma UnstagedKeeps(s: HcdState, t: HcdState, v: UrbId, u: UrbId)
    requires t.contexts == s.contexts && t.stages == s.stages - {v} && (v in s.contexts ==> s.contexts[v].phase != Active)
    ensures Moved(s, t, u)
  {
  }

  lemma AskKeeps(s: HcdState, v: UrbId, status: int, u: UrbId)
    requires Inv(s)
    ensures KeepsLaw(s, Ask(s, v, status), u)
  {
    hide Inv, QueueGiveback, Moved, KeepsLaw, Ask;
    var t := Ask(s, v, status);
    AskLeft(s, v, status);
    if v in s.stages && s.stages[v] == Asking {
      AskingIsNotActive(s, v);
      if status == 0 || v !in s.contexts {
        UnstagedKeeps(s, t, v, u);
      } else {
        var q := QueueGiveback(s, v, status);
        QueueMoves(s, v, status, u);
        QueueLeaves(s, v, status);
        UnstagedKeeps(q, t, v, u);
        MovedTwice(s, q, t, u);
      }
      MovedKeeps(s, t, u);
    } else {
      SameKeeps(s, t, u);
    }
  }

  lemma AskLeft(s: HcdState, v: UrbId, status: int)
    ensures var t := Ask(s, v, status);
            if v !in s.stages || s.stages[v] != Asking then t == s
            else
              && t.stages == s.stages - {v}
              && t.contexts == if status == 0 || v !in s.contexts then s.contexts else QueueGiveback(s, v, status).contexts
  {
    hide QueueGiveback, Ask;
    if v in s.stages && s.stages[v] == Asking && status != 0 && v in s.contexts {
      AskFailed(s, v, status);
    } else {
      AskSent(s, v, status);
    }
  }

  lemma AskFailed(s: HcdState, v: UrbId, status: int)
    requires v in s.stages && s.stages[v] == Asking && status != 0 && v in s.contexts
    ensures var t := Ask(s, v, status);
            t.contexts == QueueGiveback(s, v, status).contexts && t.stages == s.stages - {v}
  {
    hide QueueGiveback;
  }

  lemma AskSent(s: HcdState, v: UrbId, status: int)
    requires !(v in s.stages && s.stages[v] == Asking && status != 0 && v in s.contexts)
    ensures var t := Ask(s, v, status);
            if v !in s.stages || s.stages[v] != Asking then t == s
            else t.stages == s.stages - {v} && t.contexts == s.contexts
  {
    hide QueueGiveback;
  }

  lemma QueueLeaves(s: HcdState, v: UrbId, status: int)
    requires v in s.contexts
    ensures var t := QueueGiveback(s, v, status); t.stages == s.stages && v in t.contexts && !Waiting(t, v)
  {
    hide QueueGiveback;
    if Waiting(s, v) {
      GivebackChanges(s, v, status);
    } else {
      NothingQueued(s, v, status);
    }
  }

  lemma SettleKeeps(s: HcdState, v: UrbId, u: UrbId)
    ensures KeepsLaw(s, Settle(s, v), u)
  {
    hide QueueGiveback, Moved, KeepsLaw;
    var t := Settle(s, v);
    if v !in s.contexts || s.contexts[v].phase != Active || v !in s.stages || !s.stages[v].Decided? {
      SameKeeps(s, t, u);
    } else {
      var status := s.stages[v].status;
      var q := QueueGiveback(s, v, status);
      QueueMoves(s, v, status, u);
      QueueLeaves(s, v, status);
      UnstagedKeeps(q, t, v, u);
      MovedTwice(s, q, t, u);
      MovedKeeps(s, t, u);
    }
  }

  lemma DequeueKeeps(s: HcdState, v: UrbId, status: int, u: UrbId)
    requires status != 0
    ensures Lawful(s, u) ==> Lawful(Dequeue(s, v, status), u)
    ensures u != v || (u in s.contexts && s.contexts[u].unlinked) ==> Keeps(s, Dequeue(s, v, status), u)
  {
    hide Dequeue;
    DequeuedAs(s, v, status);
  }

  /** The one context a dequeue changes. */
  lemma DequeuedAs(s: HcdState, v: UrbId, status: int)
    ensures var t := Dequeue(s, v, status);
            && t.stages == s.stages
            && if v in s.contexts && !s.contexts[v].unlinked && s.contexts[v].phase != GivingBack && s.contexts[v].phase != Active then
                 && v in t.contexts && t.contexts == s.contexts[v := t.contexts[v]]
                 && t.contexts[v].phase == PendingGiveback && t.contexts[v].unlinked && t.contexts[v].status == status
                 && t.contexts[v].readyTime == if s.contexts[v].phase == PendingGiveback then 0 else s.contexts[v].readyTime
               else t.contexts == s.contexts
  {
    hide QueueGiveback, Dequeue;
    if v !in s.contexts || s.contexts[v].unlinked || s.contexts[v].phase == GivingBack || s.contexts[v].phase == Active {
      DequeueRefused(s, v, status);
    } else if s.contexts[v].phase == PendingGiveback {
      DequeueZeroes(s, v, status);
    } else {
      DequeueQueues(s, v, status);
      MarkedAs(s, v, status);
    }
  }

  lemma DequeueRefused(s: HcdState, v: UrbId, status: int)
    requires v !in s.contexts || s.contexts[v].unlinked || s.contexts[v].phase == GivingBack || s.contexts[v].phase == Active
    ensures Dequeue(s, v, status) == s
  {
    hide QueueGiveback;
  }

  lemma DequeueZeroes(s: HcdState, v: UrbId, status: int)
    requires v in s.contexts && !s.contexts[v].unlinked && s.contexts[v].phase == PendingGiveback
    ensures var t := Dequeue(s, v, status);
            && t.stages == s.stages && v in t.contexts && t.contexts == s.contexts[v := t.contexts[v]]
            && t.contexts[v] == s.contexts[v].(unlinked := true, status := status, readyTime := 0)
  {
    hide QueueGiveback;
  }

  lemma DequeueQueues(s: HcdState, v: UrbId, status: int)
    requires Waiting(s, v) && s.contexts[v].phase != Active && !s.contexts[v].unlinked
    ensures Dequeue(s, v, status) == QueueGiveback(s.(contexts := s.contexts[v := s.contexts[v].(unlinked := true)]), v, status)
  {
    hide QueueGiveback;
  }

  /** What is completed stands on the completed list alone. */
  lemma DequeueLists(s: HcdState, v: UrbId, status: int)
    requires Inv(s) && status != 0
    ensures var t := Dequeue(s, v, status);
            v in t.contexts && t.contexts[v].phase == PendingGiveback ==>
              v in t.completedUrbs && v !in t.pendingHidIn && v !in t.pendingFeatureGet
  {
    hide Inv, Dequeue;
    DequeueKeepsInv(s, v, status);
    var t := Dequeue(s, v, status);
    if v in t.contexts && t.contexts[v].phase == PendingGiveback {
      CompletedIsListed(t, v);
    }
  }

  lemma MarkedAs(s: HcdState, v: UrbId, status: int)
    requires Waiting(s, v)
    ensures var t := QueueGiveback(s.(contexts := s.contexts[v := s.contexts[v].(unlinked := true)]), v, status);
            && t.stages == s.stages && v in t.contexts && t.contexts == s.contexts[v := t.contexts[v]]
            && t.contexts[v].phase == PendingGiveback && t.contexts[v].unlinked && t.contexts[v].status == status
            && t.contexts[v].readyTime == s.contexts[v].readyTime
  {
    hide Without, InsertAt, InsertPosition;
  }

  lemma WriteKeeps(s: HcdState, report: Report, now: nat, u: UrbId)
    requires Inv(s)
    ensures KeepsLaw(s, WriteInput(s, report, now), u)
  {
    hide Inv, FillHidIn, QueueGiveback, Moved, KeepsLaw, WriteInput;
    var t := WriteInput(s, report, now);
    if ValidInputReport(report) && !s.stopping && s.pendingHidIn != [] {
      var v, index := s.pendingHidIn[0], |s.written|;
      var logged := s.(written := s.written + [report]);
      PendingHidLive(s, v);
      var filled := FillHidIn(logged, v, index, now);
      FilledAs(logged, v, index, now);
      FillTouchesOne(logged, v, index, now);
      FillKeepsUnlinked(logged, v, index, now);
      QueueMoves(filled, v, 0, u);
      WriteServes(s, report, now);
      WrittenMoves(s, filled, t, v, u);
      MovedKeeps(s, t, u);
    } else {
      WriteBuffers(s, report, now);
      SameKeeps(s, t, u);
    }
  }

  lemma WriteServes(s: HcdState, report: Report, now: nat)
    requires ValidInputReport(report) && !s.stopping && s.pendingHidIn != []
    ensures var v := s.pendingHidIn[0];
            WriteInput(s, report, now) == QueueGiveback(FillHidIn(s.(written := s.written + [report]), v, |s.written|, now), v, 0)
  {
    hide FillHidIn, QueueGiveback;
  }

  lemma WriteBuffers(s: HcdState, report: Report, now: nat)
    requires !(ValidInputReport(report) && !s.stopping && s.pendingHidIn != [])
    ensures WriteInput(s, report, now).contexts == s.contexts && WriteInput(s, report, now).stages == s.stages
  {
    hide FillHidIn, QueueGiveback;
  }

  lemma PendingHidLive(s: HcdState, u: UrbId)
    requires Inv(s) && u in s.pendingHidIn
    ensures u in s.contexts && s.contexts[u].phase == PendingHidIn && Waiting(s, u) && u !in s.completedUrbs
  {
  }

  lemma FillKeepsUnlinked(s: HcdState, u: UrbId, index: nat, now: nat)
    requires u in s.contexts && index < |s.written|
    ensures u in FillHidIn(s, u, index, now).contexts
    ensures FillHidIn(s, u, index, now).contexts[u].unlinked == s.contexts[u].unlinked
  {
    hide Schedule;
  }

  lemma WrittenMoves(s: HcdState, filled: HcdState, t: HcdState, v: UrbId, u: UrbId)
    requires Waiting(s, v) && filled.stages == s.stages && filled.contexts.Keys == s.contexts.Keys
    requires filled.contexts[v].phase == s.contexts[v].phase && filled.contexts[v].unlinked == s.contexts[v].unlinked
    requires forall x :: x in s.contexts && x != v ==> filled.contexts[x] == s.contexts[x]
    requires t == QueueGiveback(filled, v, 0) && Moved(filled, t, u)
    ensures Moved(s, t, u)
  {
    hide QueueGiveback, Without, InsertAt, InsertPosition;
    QueuedAs(filled, v, 0);
  }

  lemma ReplyKeeps(s: HcdState, report: Report, u: UrbId)
    requires Inv(s)
    ensures KeepsLaw(s, CompleteReply(s, report), u)
  {
    hide Inv, CompleteMatching, Moved, KeepsLaw;
    var t := CompleteReply(s, report);
    if report !in s.replying || report == [] || s.stopping {
      SameKeeps(s, t, u);
    } else {
      var m := s.(replying := s.replying - multiset{report}, served := s.served + [report[0]]);
      PendingFeatureWaits(s);
      MatchingMoves(m, s.pendingFeatureGet, report, u);
      MovedAside(s, m, u);
      MovedTwice(s, m, t, u);
      MovedKeeps(s, t, u);
    }
  }

  lemma PendingFeatureWaits(s: HcdState)
    requires Inv(s)
    ensures Distinct(s.pendingFeatureGet) && forall v :: v in s.pendingFeatureGet ==> Waiting(s, v)
  {
  }

  lemma StopKeeps(s: HcdState, u: UrbId)
    ensures KeepsLaw(s, Stop(s), u) && KeepsLaw(s, Disconnect(s), u)
  {
    hide CancelPending, Moved, KeepsLaw;
    var m := s.(stopping := true);
    var c := CancelPending(m, -ESHUTDOWN);
    CancelMoves(m, -ESHUTDOWN, u);
    MovedAside(s, m, u);
    MovedTwice(s, m, c, u);
    MovedAside(c, Stop(s), u);
    MovedTwice(s, c, Stop(s), u);
    MovedKeeps(s, Stop(s), u);
    if s.stopping {
      SameKeeps(s, Disconnect(s), u);
    } else {
      var d := CancelPending(s, -ESHUTDOWN);
      CancelMoves(s, -ESHUTDOWN, u);
      MovedAside(d, Disconnect(s), u);
      MovedTwice(s, d, Disconnect(s), u);
      MovedKeeps(s, Disconnect(s), u);
    }
  }

  lemma ThreadKeeps(s: HcdState, now: nat, u: UrbId)
    requires Inv(s)
    ensures KeepsLaw(s, Pick(s, now), u) && KeepsLaw(s, Giveback(s), u)
  {
    hide Inv, Pick, Giveback;
    CompletedOnce(s);
    PickIs(s, now);
    if s.completedUrbs != [] && s.completedUrbs[0] in s.contexts && Pick(s, now) == Picked(s, s.completedUrbs[0]) {
      assert s.completedUrbs[0] in s.completedUrbs;
      PickedKeeps(s, s.completedUrbs[0], u);
    } else {
      SameKeeps(s, Pick(s, now), u);
    }
    GivebackKeeps(s, u);
  }

  lemma PickedKeeps(s: HcdState, v: UrbId, u: UrbId)
    requires v in s.contexts && s.contexts[v].phase == PendingGiveback && s.completedUrbs != []
    ensures KeepsLaw(s, Picked(s, v), u)
  {
  }

  lemma GivebackKeeps(s: HcdState, u: UrbId)
    ensures KeepsLaw(s, Giveback(s), u)
  {
    hide Giveback;
    GivenBack(s);
  }

  lemma GivenBack(s: HcdState)
    ensures var t := Giveback(s);
            && t.stages == s.stages
            && t.contexts == if s.giving.Some? then s.contexts - {s.giving.value} else s.contexts
  {
  }

  /** The steps that change no URB and no stage. */
  lemma FlagsKeep(s: HcdState, step: Step, u: UrbId)
    requires step.DoCacheReply? || step.DoConnect? || step.DoResetUsb? || step.DoSetProfile? || step.DoWake? || step.DoStopThread?
    ensures KeepsLaw(s, Next(s, step), u)
  {
    hide KeepsLaw;
    SameKeeps(s, Next(s, step), u);
  }

  lemma NextIsFree(s: HcdState)
    requires Inv(s)
    ensures s.nextId !in s.contexts
  {
  }

  lemma NextKeepsLaw(s: HcdState, step: Step, u: UrbId)
    requires Inv(s) && ValidStep(step)
    ensures Lawful(s, u) ==> Lawful(Next(s, step), u)
    ensures step.DoDequeue? && step.u == u ==> u in s.contexts && s.contexts[u].unlinked ==> Keeps(s, Next(s, step), u)
    ensures !(step.DoDequeue? && step.u == u) ==> Keeps(s, Next(s, step), u)
  {
    hide Inv, Lawful, Keeps, Link, ScheduleUrb, PopInput, LookUp, Defer, Ask, Settle, Dequeue, WriteInput, CacheReply, CompleteReply,
         Connect, Disconnect, ResetUsb, SetProfile, Pick, Wake, StopThread, Giveback, Stop;
    match step
    case DoLink(urb) => NextIsFree(s); LinkKeeps(s, urb, u);
    case DoSchedule(v, now) => ScheduleKeeps(s, v, now, u);
    case DoPopInput(v, now) => PopKeeps(s, v, now, u);
    case DoLookUp(v) => LookUpKeeps(s, v, u);
    case DoDefer(v) => DeferKeeps(s, v, u);
    case DoAsk(v, status) => AskKeeps(s, v, status, u);
    case DoSettle(v) => SettleKeeps(s, v, u);
    case DoDequeue(v, status) => DequeueKeeps(s, v, status, u);
    case DoWriteInput(report, now) => WriteKeeps(s, report, now, u);
    case DoCompleteReply(report) => ReplyKeeps(s, report, u);
    case DoDisconnect => StopKeeps(s, u);
    case DoPick(now) => ThreadKeeps(s, now, u);
    case DoGiveback => ThreadKeeps(s, 0, u);
    case DoStop => StopKeeps(s, u);
    case _ => FlagsKeep(s, step, u);
  }

  // ---------------------------------------------------------------------------------------------
  // Over whole runs
  // ---------------------------------------------------------------------------------------------

  lemma {:induction false} RunIsLawful(s: HcdState, steps: seq<Step>, u: UrbId)
    requires Inv(s) && Lawful(s, u) && ValidRun(steps)
    ensures Lawful(Run(s, steps), u) && Inv(Run(s, steps))
  {
    hide Inv, Lawful, Next;
    if steps != [] {
      var before := steps[..|steps| - 1];
      RunIsLawful(s, before, u);
      NextKeepsLaw(Run(s, before), steps[|steps| - 1], u);
      NextKeepsInv(Run(s, before), steps[|steps| - 1]);
    }
  }

  lemma FromStart(hidInIntervalUs: nat, steps: seq<Step>, u: UrbId)
    requires ValidRun(steps)
    ensures var s := Run(Init(hidInIntervalUs), steps); Inv(s) && Lawful(s, u)
  {
    hide Inv;
    StartHolds(hidInIntervalUs);
    RunIsLawful(Init(hidInIntervalUs), steps, u);
  }

  lemma StartHolds(hidInIntervalUs: nat)
    ensures Inv(Init(hidInIntervalUs))
  {
    RunFromInit(hidInIntervalUs, []);
  }

  /** In every reachable state, unlinking an URB that is not inside urb_enqueue, not unlinked yet and not
      in giveback completes it with the given status, due at once, and changes no other URB; otherwise
      nothing changes. */
  lemma UnlinkCompletes(hidInIntervalUs: nat, steps: seq<Step>, u: UrbId, status: int)
    requires ValidRun(steps) && status != 0
    ensures var s := Run(Init(hidInIntervalUs), steps);
            var t := Next(s, DoDequeue(u, status));
            if u in s.contexts && !s.contexts[u].unlinked && s.contexts[u].phase != Active && s.contexts[u].phase != GivingBack then
              CompletesWith(s, t, u, status, 0) && t.contexts[u].unlinked && t.contexts[u].reply == s.contexts[u].reply
              && OnlyUrbs(s, t)
            else t == s
  {
    hide Inv, Run;
    FromStart(hidInIntervalUs, steps, u);
    DequeueExactly(Run(Init(hidInIntervalUs), steps), u, status);
  }

  lemma DequeueExactly(s: HcdState, u: UrbId, status: int)
    requires Inv(s) && Lawful(s, u)
    ensures var t := Dequeue(s, u, status);
            if u in s.contexts && !s.contexts[u].unlinked && s.contexts[u].phase != Active && s.contexts[u].phase != GivingBack then
              CompletesWith(s, t, u, status, 0) && t.contexts[u].unlinked && t.contexts[u].reply == s.contexts[u].reply
              && OnlyUrbs(s, t)
            else t == s
  {
    hide Inv, CompletesWith, OnlyUrbs, Dequeue, Lawful;
    if u in s.contexts && !s.contexts[u].unlinked && s.contexts[u].phase != Active && s.contexts[u].phase != GivingBack {
      if s.contexts[u].phase == PendingGiveback {
        DequeueCompleted(s, u, status);
      } else {
        DequeueWaiting(s, u, status);
      }
    } else {
      DequeueRefused(s, u, status);
    }
  }

  lemma DequeueCompleted(s: HcdState, u: UrbId, status: int)
    requires Inv(s) && u in s.contexts && !s.contexts[u].unlinked && s.contexts[u].phase == PendingGiveback
    ensures var t := Dequeue(s, u, status);
            && CompletesWith(s, t, u, status, 0) && t.contexts[u].unlinked && t.contexts[u].reply == s.contexts[u].reply
            && OnlyUrbs(s, t)
  {
    hide Inv, CompletesWith, OnlyUrbs, Dequeue;
    CompletedIsListed(s, u);
    DequeueZeroes(s, u, status);
    DequeueInPlace(s, u, status);
    ChangedInPlace(s, Dequeue(s, u, status), u);
  }

  lemma DequeueWaiting(s: HcdState, u: UrbId, status: int)
    requires Inv(s) && Lawful(s, u) && Waiting(s, u) && s.contexts[u].phase != Active && !s.contexts[u].unlinked
    ensures var t := Dequeue(s, u, status);
            && CompletesWith(s, t, u, status, 0) && t.contexts[u].unlinked && t.contexts[u].reply == s.contexts[u].reply
            && OnlyUrbs(s, t)
  {
    hide Inv, CompletesWith, OnlyUrbs, Dequeue, QueueGiveback;
    DequeueQueues(s, u, status);
    var m := s.(contexts := s.contexts[u := s.contexts[u].(unlinked := true)]);
    MarkedPlaced(s, m, u);
    GivebackCompletes(m, u, status);
    MarkedCompletes(s, m, Dequeue(s, u, status), u, status);
  }

  lemma DequeueInPlace(s: HcdState, u: UrbId, status: int)
    requires u in s.contexts && !s.contexts[u].unlinked && s.contexts[u].phase == PendingGiveback
    ensures var t := Dequeue(s, u, status); u in t.contexts && t == s.(contexts := s.contexts[u := t.contexts[u]])
  {
    hide QueueGiveback;
  }

  lemma ChangedInPlace(s: HcdState, t: HcdState, u: UrbId)
    requires u in s.contexts && u in t.contexts && t == s.(contexts := s.contexts[u := t.contexts[u]])
    requires u in s.completedUrbs && u !in s.pendingHidIn && u !in s.pendingFeatureGet
    requires t.contexts[u].phase == PendingGiveback && SameRequest(s.contexts[u], t.contexts[u])
    ensures CompletesWith(s, t, u, t.contexts[u].status, t.contexts[u].readyTime) && OnlyUrbs(s, t)
  {
    hide Without;
  }

  lemma CompletedIsListed(s: HcdState, u: UrbId)
    requires Inv(s) && u in s.contexts && s.contexts[u].phase == PendingGiveback
    ensures u in s.completedUrbs && u !in s.pendingHidIn && u !in s.pendingFeatureGet
  {
  }

  lemma MarkedPlaced(s: HcdState, m: HcdState, u: UrbId)
    requires Inv(s) && u in s.contexts && m == s.(contexts := s.contexts[u := s.contexts[u].(unlinked := true)])
    ensures Placed(m)
  {
  }

  lemma MarkedCompletes(s: HcdState, m: HcdState, t: HcdState, u: UrbId, status: int)
    requires u in s.contexts && m == s.(contexts := s.contexts[u := s.contexts[u].(unlinked := true)])
    requires CompletesWith(m, t, u, status, s.contexts[u].readyTime) && OnlyUrbs(m, t)
    ensures CompletesWith(s, t, u, status, s.contexts[u].readyTime) && OnlyUrbs(s, t)
  {
    hide Without;
  }

  /** In every reachable state an unlinked URB is completed or in giveback, due at once, and has failed. */
  lemma UnlinkedHasFailed(hidInIntervalUs: nat, steps: seq<Step>, u: UrbId)
    requires ValidRun(steps)
    ensures var s := Run(Init(hidInIntervalUs), steps);
            u in s.contexts && s.contexts[u].unlinked ==>
              && (s.contexts[u].phase == PendingGiveback || s.contexts[u].phase == GivingBack)
              && s.contexts[u].readyTime == 0 && s.contexts[u].status != 0
  {
    hide Inv, Run;
    FromStart(hidInIntervalUs, steps, u);
  }

  ghost predicate NoDequeueOf(steps: seq<Step>, u: UrbId) {
    forall i :: 0 <= i < |steps| && steps[i].DoDequeue? ==> steps[i].u != u
  }

  /** A completed URB comes to its giveback with the status, due time and data it has, whatever happens
      meanwhile; unless it is unlinked for the first time. */
  lemma {:induction false} CompletedIsFinal(hidInIntervalUs: nat, steps: seq<Step>, rest: seq<Step>, u: UrbId)
    requires ValidRun(steps) && ValidRun(rest)
    requires var s := Run(Init(hidInIntervalUs), steps);
             && u in s.contexts && (s.contexts[u].phase == PendingGiveback || s.contexts[u].phase == GivingBack)
             && (s.contexts[u].unlinked || NoDequeueOf(rest, u))
    ensures var s := Run(Init(hidInIntervalUs), steps);
            var t := Run(s, rest);
            if u in t.contexts then
              (t.contexts[u].phase == PendingGiveback || t.contexts[u].phase == GivingBack)
              && t.contexts[u] == s.contexts[u].(phase := t.contexts[u].phase)
            else u in t.returned
  {
    hide Inv, Run, Next;
    FromStart(hidInIntervalUs, steps, u);
    RunKeepsCompleted(Run(Init(hidInIntervalUs), steps), rest, u);
  }

  lemma {:induction false} RunKeepsCompleted(s: HcdState, rest: seq<Step>, u: UrbId)
    requires Inv(s) && ValidRun(rest)
    requires u in s.contexts && !Waiting(s, u) && (s.contexts[u].unlinked || NoDequeueOf(rest, u))
    ensures var t := Run(s, rest);
            && Inv(t)
            && if u in t.contexts then !Waiting(t, u) && t.contexts[u] == s.contexts[u].(phase := t.contexts[u].phase)
               else u in t.returned
    decreases |rest|
  {
    hide Inv, Next;
    if rest != [] {
      var before, step := rest[..|rest| - 1], rest[|rest| - 1];
      assert NoDequeueOf(rest, u) ==> NoDequeueOf(before, u);
      RunKeepsCompleted(s, before, u);
      var m := Run(s, before);
      NextKeepsLaw(m, step, u);
      NextKeepsInv(m, step);
      NextAccountsFor(m, step, u);
      if u !in m.contexts {
        GoneForGood(m, step, u);
      }
    }
  }

  lemma GoneForGood(s: HcdState, step: Step, u: UrbId)
    requires Inv(s) && ValidStep(step) && u in s.returned
    ensures u !in Next(s, step).contexts
  {
    hide Inv, Next;
    NextKeepsInv(s, step);
    NextReturns(s, step);
    var t := Next(s, step);
    assert s.returned <= t.returned && u in t.returned;
    ReturnedNotLive(t, u);
  }

  lemma ReturnedNotLive(s: HcdState, u: UrbId)
    requires Inv(s) && u in s.returned
    ensures u !in s.contexts
  {
  }

  lemma NextAccountsFor(s: HcdState, step: Step, u: UrbId)
    requires Inv(s) && ValidStep(step) && (u in s.contexts || u in s.returned)
    ensures u in Next(s, step).contexts || u in Next(s, step).returned
  {
    hide Inv, Next;
    if step.DoGiveback? {
      NextIsGiveback(s);
      GivebackAccountsFor(s, u);
    } else {
      NextReturns(s, step);
      if step.DoLink? {
        LinkOnlyAdds(s, step.urb);
      } else if step.DoSchedule? || step.DoPopInput? || step.DoLookUp? || step.DoDefer? || step.DoAsk? || step.DoSettle? {
        EnqueueReturnsNone(s, step);
      } else {
        OthersReturnNone(s, step);
      }
    }
  }

  lemma GivebackAccountsFor(s: HcdState, u: UrbId)
    requires u in s.contexts || u in s.returned
    ensures u in Giveback(s).contexts || u in Giveback(s).returned
  {
  }

  lemma LinkOnlyAdds(s: HcdState, urb: Submission)
    ensures s.contexts.Keys <= Next(s, DoLink(urb)).contexts.Keys
  {
  }

  /** So an unlinked URB is returned when its turn comes: at any time at which the thread is not asleep and
      what stands ahead of it is due, the thread returns that and then this URB. */
  lemma UnlinkedIsReturned(hidInIntervalUs: nat, steps: seq<Step>, now: nat, j: nat)
    requires ValidRun(steps)
    requires var s := Run(Init(hidInIntervalUs), steps);
             && s.giving.None? && j < |s.completedUrbs| && DueFirst(s, now, j) && !AsleepPast(s, now)
             && s.completedUrbs[j] in s.contexts && s.contexts[s.completedUrbs[j]].unlinked
    ensures var s := Run(Init(hidInIntervalUs), steps);
            Drain(Wake(s, now), now, j + 1).returned == s.returned + s.completedUrbs[..j] + [s.completedUrbs[j]]
  {
    hide Inv, Run, Drain;
    var s := Run(Init(hidInIntervalUs), steps);
    UnlinkedHasFailed(hidInIntervalUs, steps, s.completedUrbs[j]);
    DueIsReturnedExactly(hidInIntervalUs, steps, now, j + 1);
    assert s.completedUrbs[..j + 1] == s.completedUrbs[..j] + [s.completedUrbs[j]];
  }
}
