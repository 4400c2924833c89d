/** Proofs that every step of the host controller keeps its invariants. */
module HcdInvariants {
  import opened VdsTypes
  import opened HcdPacing
  import opened HcdUrbs

  lemma InsertMembers(q: seq<UrbId>, p: nat, u: UrbId)
    requires Distinct(q) && u !in q && p <= |q|
    ensures var r := q[..p] + [u] + q[p..];
            Distinct(r) && forall x :: x in r <==> x in q || x == u
  {
    var r := q[..p] + [u] + q[p..];
    forall x ensures x in r <==> x in q || x == u {
      assert q == q[..p] + q[p..];
      assert r[p] == u;
    }
  }

  lemma RemovedHolds(contexts: map<UrbId, UrbContext>, q: seq<UrbId>, phase: Phase, u: UrbId, c: UrbContext)
    requires Holds(contexts, q, phase) && u in contexts && c.phase != phase
    ensures Holds(contexts[u := c], Without(q, u), phase)
    ensures forall x :: x in Without(q, u) <==> x in q && x != u
  {
    hide Without;
    WithoutMembers(q, u);
  }

  lemma InsertedHolds(contexts: map<UrbId, UrbContext>, q: seq<UrbId>, phase: Phase, p: nat, u: UrbId, c: UrbContext)
    requires Holds(contexts, q, phase) && u in contexts && contexts[u].phase != phase && c.phase == phase && p <= |q|
    ensures Holds(contexts[u := c], InsertAt(q, p, u), phase)
  {
    InsertMembers(q, p, u);
  }

  /** Queueing a completion moves one URB to the completed list in its place and leaves every other
      context as it was. */
  lemma GivebackMoves(s: HcdState, u: UrbId, status: int)
    requires Placed(s)
    requires u in s.contexts && s.contexts[u].phase != PendingGiveback && s.contexts[u].phase != GivingBack
    ensures var t := QueueGiveback(s, u, status);
            && Placed(t)
            && t.contexts.Keys == s.contexts.Keys
            && (forall x :: x in s.contexts && x != u ==> t.contexts[x] == s.contexts[x])
            && (forall x :: x in t.pendingHidIn <==> x in s.pendingHidIn && x != u)
            && (forall x :: x in t.pendingFeatureGet <==> x in s.pendingFeatureGet && x != u)
  {
    hide Without, InsertPosition, InsertAt, Holds;
    var c := QueueGiveback(s, u, status).contexts[u];
    RemovedHolds(s.contexts, s.pendingHidIn, PendingHidIn, u, c);
    RemovedHolds(s.contexts, s.pendingFeatureGet, PendingFeatureGet, u, c);
    InsertedHolds(s.contexts, s.completedUrbs, PendingGiveback, InsertPosition(s.completedUrbs, s.contexts, s.contexts[u].readyTime), u, c);
  }

  /** The new completion `c` may stand where `InsertPosition` puts it, next to any queued `x`. */
  lemma InsertedMayStand(s: HcdState, c: UrbContext, i: nat)
    requires Ordered(s) && i < |s.completedUrbs|
    requires c.queuedTimed == (c.readyTime > 0) && c.arrival == s.arrivals
    ensures var p := InsertPosition(s.completedUrbs, s.contexts, c.readyTime);
            var x := s.contexts[s.completedUrbs[i]];
            if i < p then MayPrecede(x, c) else MayPrecede(c, x)
  {
    var q := s.completedUrbs;
    var p := InsertPosition(q, s.contexts, c.readyTime);
    var x := s.contexts[q[i]];
    assert q[i] in s.completedUrbs;
    if i < p {
      assert ReadyTime(s.contexts, q[i]) <= c.readyTime;
    } else {
      assert q[p] in s.completedUrbs;
      assert ReadyTime(s.contexts, q[p]) > c.readyTime;
      assert p < i ==> MayPrecede(s.contexts[q[p]], x);
    }
  }

  lemma InsertedAt(q: seq<UrbId>, p: nat, u: UrbId, i: nat)
    requires p <= |q| && i <= |q|
    ensures var r := q[..p] + [u] + q[p..];
            r[i] == if i < p then q[i] else if i == p then u else q[i - 1]
  {
  }

  lemma GivebackPairOrdered(s: HcdState, u: UrbId, status: int, i: nat, j: nat)
    requires Placed(s) && Ordered(s)
    requires u in s.contexts && s.contexts[u].phase != PendingGiveback && s.contexts[u].phase != GivingBack
    requires i < j <= |s.completedUrbs|
    ensures var t := QueueGiveback(s, u, status);
            MayPrecede(t.contexts[t.completedUrbs[i]], t.contexts[t.completedUrbs[j]])
  {
    var q := s.completedUrbs;
    var t := QueueGiveback(s, u, status);
    var p := InsertPosition(q, s.contexts, s.contexts[u].readyTime);
    InsertedAt(q, p, u, i);
    InsertedAt(q, p, u, j);
    if i == p {
      InsertedMayStand(s, t.contexts[u], j - 1);
    } else if j == p {
      InsertedMayStand(s, t.contexts[u], i);
    }
  }

  lemma GivebackMembers(s: HcdState, u: UrbId, status: int)
    requires Placed(s) && Ordered(s)
    requires u in s.contexts && s.contexts[u].phase != PendingGiveback && s.contexts[u].phase != GivingBack
    ensures var t := QueueGiveback(s, u, status);
            && |t.completedUrbs| == |s.completedUrbs| + 1
            && (forall x :: x in t.completedUrbs ==> x in t.contexts)
            && (forall x :: x in t.completedUrbs ==>
                  t.contexts[x].arrival < t.arrivals && (Timed(t.contexts[x]) ==> t.contexts[x].queuedTimed))
  {
    hide Without, InsertPosition, Holds;
    InsertMembers(s.completedUrbs, InsertPosition(s.completedUrbs, s.contexts, s.contexts[u].readyTime), u) by {
      CompletedDistinct(s, u);
    }
  }

  lemma CompletedDistinct(s: HcdState, u: UrbId)
    requires Placed(s) && u in s.contexts && s.contexts[u].phase != PendingGiveback
    ensures Distinct(s.completedUrbs) && u !in s.completedUrbs
  {
  }

  /** The two insertion rules keep the order of the completed list. */
  lemma GivebackOrdered(s: HcdState, u: UrbId, status: int)
    requires Placed(s) && Ordered(s)
    ensures Ordered(QueueGiveback(s, u, status))
  {
    if u in s.contexts && s.contexts[u].phase != PendingGiveback && s.contexts[u].phase != GivingBack {
      var t := QueueGiveback(s, u, status);
      GivebackMembers(s, u, status);
      hide Placed, QueueGiveback;
      forall i, j | 0 <= i < j < |t.completedUrbs|
        ensures MayPrecede(t.contexts[t.completedUrbs[i]], t.contexts[t.completedUrbs[j]])
      {
        GivebackPairOrdered(s, u, status, i, j);
      }
    }
  }

  ghost predicate Waiting(s: HcdState, u: UrbId) {
    u in s.contexts && s.contexts[u].phase != PendingGiveback && s.contexts[u].phase != GivingBack
  }

  ghost predicate SameRequest(c: UrbContext, d: UrbContext) {
    d.kind == c.kind && d.hasBuffer == c.hasBuffer && d.bufferLength == c.bufferLength
  }

  /** `t` differs from `s` only in that some waiting URBs were filled and queued for giveback. */
  ghost predicate Advanced(s: HcdState, t: HcdState) {
    && t == s.(contexts := t.contexts, pendingHidIn := t.pendingHidIn, pendingFeatureGet := t.pendingFeatureGet,
               completedUrbs := t.completedUrbs, arrivals := t.arrivals)
    && t.contexts.Keys == s.contexts.Keys
    && (forall u :: u in s.contexts ==>
          t.contexts[u] == s.contexts[u] || (t.contexts[u].phase == PendingGiveback && SameRequest(s.contexts[u], t.contexts[u])))
    && (forall u :: u in t.pendingHidIn ==> u in s.pendingHidIn)
    && (forall u :: u in t.pendingFeatureGet ==> u in s.pendingFeatureGet)
  }

  lemma AdvancedTransitive(s: HcdState, t: HcdState, r: HcdState)
    requires Advanced(s, t) && Advanced(t, r)
    ensures Advanced(s, r)
  {
  }

  lemma SubsetOfEmpty(q: seq<UrbId>, r: seq<UrbId>)
    requires forall u :: u in r ==> u in q
    ensures q == [] ==> r == []
  {
    if r != [] {
      assert r[0] in q;
    }
  }

  /** What does not depend on the completed list survives queueing. */
  lemma AdvancedKeeps(s: HcdState, t: HcdState)
    requires Advanced(s, t)
    ensures Accounted(s) ==> Accounted(t)
    ensures Staged(s) ==> Staged(t)
    ensures PacedStreams(s) ==> PacedStreams(t)
    ensures HidFresh(s) ==> HidFresh(t)
    ensures Quiet(s) ==> Quiet(t)
  {
    SubsetOfEmpty(s.pendingHidIn, t.pendingHidIn);
    SubsetOfEmpty(s.pendingFeatureGet, t.pendingFeatureGet);
  }

  /** What an URB that waits for a report waits for does not depend on the lists. */
  lemma WaitsAside(s: HcdState, t: HcdState, u: UrbId)
    requires u in s.contexts && u in t.contexts && t.contexts[u].kind == s.contexts[u].kind
    requires u in s.marks && u in t.marks && t.marks[u] == s.marks[u]
    requires t.cacheLog == s.cacheLog && t.served == s.served
    requires forall id :: WriterFor(s, id) ==> WriterFor(t, id)
    ensures MissedLookUp(s, u) ==> MissedLookUp(t, u)
    ensures StillWaits(s, u) ==> StillWaits(t, u)
  {
  }

  lemma WaitsOn(s: HcdState, t: HcdState, u: UrbId)
    requires t.contexts.Keys == s.contexts.Keys && (u in s.contexts ==> t.contexts[u].kind == s.contexts[u].kind)
    requires t.marks == s.marks && t.cacheLog == s.cacheLog && t.served == s.served && t.replying == s.replying
    ensures MissedLookUp(s, u) ==> MissedLookUp(t, u)
    ensures StillWaits(s, u) ==> StillWaits(t, u)
  {
    if MissedLookUp(s, u) {
      WaitsAside(s, t, u);
    }
  }

  lemma AdvancedServes(s: HcdState, t: HcdState)
    requires Advanced(s, t) && FeatureServed(s)
    ensures FeatureServed(t)
  {
    forall u | u in t.pendingFeatureGet ensures StillWaits(t, u) {
      assert StillWaits(s, u);
      WaitsAside(s, t, u);
    }
    forall u | At(t, u, Missed) ensures MissedLookUp(t, u) {
      assert At(s, u, Missed);
      WaitsAside(s, t, u);
    }
  }

  lemma GivebackTruthful(s: HcdState, u: UrbId, status: int)
    requires AllTruthful(s) && Waiting(s, u)
    requires status == 0 ==> Truthful(s.written, s.contexts[u])
    ensures AllTruthful(QueueGiveback(s, u, status))
  {
    hide Truthful, InsertPosition, InsertAt, Without;
    hide QueueGiveback;
    var t := QueueGiveback(s, u, status);
    GivebackChanges(s, u, status);
    forall x | x in t.contexts && Outcome(t, x) == Some(0) ensures Truthful(t.written, t.contexts[x]) {
      if x != u {
        assert t.contexts[x] == s.contexts[x] && Outcome(s, x) == Some(0);
      } else {
        TruthfulWhenever(s.written, s.contexts[u], t.contexts[u]);
      }
    }
  }

  lemma GivebackChanges(s: HcdState, u: UrbId, status: int)
    requires Waiting(s, u)
    ensures var t := QueueGiveback(s, u, status);
            && t.contexts.Keys == s.contexts.Keys && t.stages == s.stages && t.written == s.written
            && t.contexts[u] == s.contexts[u].(status := status, phase := PendingGiveback, arrival := s.arrivals,
                                               queuedTimed := s.contexts[u].readyTime > 0)
            && (forall x :: x in s.contexts && x != u ==> t.contexts[x] == s.contexts[x])
  {
    hide InsertPosition, InsertAt, Without;
  }

  lemma GivebackSleeps(s: HcdState, u: UrbId, status: int)
    requires Placed(s) && Sleeps(s) && Waiting(s, u)
    ensures Sleeps(QueueGiveback(s, u, status))
  {
    hide Placed, QueueGiveback, InsertAt, InsertPosition;
    GivebackNeverWakes(s, u, status);
    if s.asleepUntil.Some? {
      HeadIsOther(s, u);
      GivebackChanges(s, u, status);
      HeadAfter(s, u, status);
      var t, head := QueueGiveback(s, u, status), s.completedUrbs[0];
      assert head in t.contexts && t.contexts[head] == s.contexts[head];
      assert u in t.contexts.Keys;
    }
  }

  lemma GivebackNeverWakes(s: HcdState, u: UrbId, status: int)
    ensures QueueGiveback(s, u, status).asleepUntil == s.asleepUntil
  {
    hide Without, InsertPosition, InsertAt;
  }

  /** The head stays, or the new completion stands before it because it is due earlier. */
  lemma HeadAfter(s: HcdState, u: UrbId, status: int)
    requires Waiting(s, u) && s.completedUrbs != []
    ensures var t := QueueGiveback(s, u, status);
            && t.asleepUntil == s.asleepUntil && t.giving == s.giving && t.completedUrbs != []
            && (t.completedUrbs[0] == s.completedUrbs[0]
                || (t.completedUrbs[0] == u && s.contexts[u].readyTime < ReadyTime(s.contexts, s.completedUrbs[0])))
  {
    hide Without, InsertPosition;
    var p := InsertPosition(s.completedUrbs, s.contexts, s.contexts[u].readyTime);
    assert p > 0 ==> InsertAt(s.completedUrbs, p, u)[0] == s.completedUrbs[0];
  }

  lemma HeadIsOther(s: HcdState, u: UrbId)
    requires Placed(s) && Waiting(s, u) && s.completedUrbs != []
    ensures s.completedUrbs[0] in s.contexts && s.completedUrbs[0] != u
  {
    assert s.completedUrbs[0] in s.completedUrbs;
  }

  lemma GivebackAdvances(s: HcdState, u: UrbId, status: int)
    requires Placed(s) && Waiting(s, u)
    ensures Advanced(s, QueueGiveback(s, u, status))
  {
    hide Placed, InsertPosition, InsertAt, Without;
    GivebackMoves(s, u, status);
  }

  lemma GivebackListed(s: HcdState, u: UrbId, status: int)
    requires Listed(s) && Waiting(s, u)
    requires status == 0 ==> Truthful(s.written, s.contexts[u])
    ensures Listed(QueueGiveback(s, u, status)) && Advanced(s, QueueGiveback(s, u, status))
  {
    GivebackMoves(s, u, status);
    GivebackOrdered(s, u, status);
    GivebackTruthful(s, u, status);
    GivebackSleeps(s, u, status);
    GivebackAdvances(s, u, status);
  }

  lemma {:induction false} QueueAllListed(s: HcdState, us: seq<UrbId>, status: int)
    requires Listed(s) && Distinct(us) && status != 0
    requires forall u :: u in us ==> Waiting(s, u)
    ensures var t := QueueAll(s, us, status);
            && Listed(t) && Advanced(s, t)
            && (forall x :: x in us ==> x in t.contexts && t.contexts[x].phase == PendingGiveback)
    decreases |us|
  {
    if us != [] {
      var u := us[0];
      var t := QueueGiveback(s, u, status);
      assert Waiting(s, u);
      GivebackListed(s, u, status);
      GivebackMoves(s, u, status);
      assert forall x :: x in us[1..] ==> x in us && x != u;
      QueueAllListed(t, us[1..], status);
      AdvancedTransitive(s, t, QueueAll(t, us[1..], status));
    }
  }

  lemma CancelListed(s: HcdState, status: int)
    requires Listed(s) && status != 0
    ensures var t := CancelPending(s, status);
            Listed(t) && Advanced(s, t) && t.pendingHidIn == [] && t.pendingFeatureGet == []
  {
    QueueAllListed(s, s.pendingHidIn, status);
    var m := QueueAll(s, s.pendingHidIn, status);
    QueueAllListed(m, m.pendingFeatureGet, status);
    var t := CancelPending(s, status);
    AdvancedTransitive(s, m, t);
    NoMembers(t.pendingHidIn);
    NoMembers(t.pendingFeatureGet);
  }

  lemma NoMembers(q: seq<UrbId>)
    requires forall u: UrbId :: u !in q
    ensures q == []
  {
    SubsetOfEmpty([], q);
  }

  /** Changing a context that is not queued leaves the order alone. */
  lemma FillKeepsOrder(s: HcdState, u: UrbId, c: UrbContext)
    requires Ordered(s) && u !in s.completedUrbs && u in s.contexts
    ensures Ordered(s.(contexts := s.contexts[u := c]))
  {
    var t := s.(contexts := s.contexts[u := c]);
    forall i | 0 <= i < |s.completedUrbs| ensures t.contexts[s.completedUrbs[i]] == s.contexts[s.completedUrbs[i]] {
      assert s.completedUrbs[i] in s.completedUrbs;
    }
  }

  lemma FillListed(s: HcdState, u: UrbId, filled: UrbContext)
    requires Listed(s) && Waiting(s, u) && filled.phase == s.contexts[u].phase
    requires Outcome(s, u).None?
    ensures Listed(s.(contexts := s.contexts[u := filled]))
  {
    var t := s.(contexts := s.contexts[u := filled]);
    FillKeepsOrder(s, u, filled);
    assert Placed(t);
    forall x | x in t.contexts && Outcome(t, x) == Some(0) ensures Truthful(t.written, t.contexts[x]) {
      assert x != u && Outcome(s, x) == Some(0);
    }
  }

  /** Fill a waiting URB, then queue it. */
  function Finish(s: HcdState, u: UrbId, filled: UrbContext, status: int): HcdState {
    QueueGiveback(s.(contexts := s.contexts[u := filled]), u, status)
  }

  lemma FinishListed(s: HcdState, u: UrbId, filled: UrbContext, status: int)
    requires Listed(s) && Waiting(s, u) && Outcome(s, u).None?
    requires SameRequest(s.contexts[u], filled) && filled.phase == s.contexts[u].phase
    requires status == 0 ==> Truthful(s.written, filled)
    ensures var t := Finish(s, u, filled, status);
            && Listed(t) && Advanced(s, t)
            && t.contexts[u].phase == PendingGiveback
            && (forall x :: x in s.contexts && x != u ==> t.contexts[x] == s.contexts[x])
            && (forall x :: x in t.pendingFeatureGet <==> x in s.pendingFeatureGet && x != u)
            && (forall x :: x in t.pendingHidIn <==> x in s.pendingHidIn && x != u)
  {
    var m := s.(contexts := s.contexts[u := filled]);
    FillListed(s, u, filled);
    GivebackListed(m, u, status);
    GivebackMoves(m, u, status);
    FilledAdvances(s, m, QueueGiveback(m, u, status), u);
  }

  lemma FilledAdvances(s: HcdState, m: HcdState, t: HcdState, u: UrbId)
    requires u in s.contexts && u in m.contexts && m == s.(contexts := s.contexts[u := m.contexts[u]])
    requires SameRequest(s.contexts[u], m.contexts[u])
    requires Advanced(m, t) && t.contexts[u].phase == PendingGiveback
    ensures Advanced(s, t)
  {
  }

  /** `d` is the waiting URB `c` completed by a reply: with the report, unless it has nowhere to put it. */
  ghost predicate Answered(c: UrbContext, d: UrbContext, report: Report) {
    && d.phase == PendingGiveback
    && d.status == (if Min(|report|, c.bufferLength) > 0 && !c.hasBuffer then -EPIPE else 0)
    && d.reply == (if d.status == 0 then Some(report) else c.reply)
    && d.readyTime == c.readyTime && d.unlinked == c.unlinked && SameRequest(c, d)
  }

  lemma FinishFills(s: HcdState, u: UrbId, filled: UrbContext, status: int)
    requires u in s.contexts && filled.phase != PendingGiveback && filled.phase != GivingBack
    ensures var d := Finish(s, u, filled, status).contexts[u];
            d.phase == PendingGiveback && d.status == status && d.reply == filled.reply
            && d.readyTime == filled.readyTime && d.unlinked == filled.unlinked
  {
  }

  lemma AnswerOne(s: HcdState, u: UrbId, report: Report)
    requires Listed(s) && report != [] && u in s.contexts && s.contexts[u].kind == FeatureGet(report[0])
    requires u in s.pendingFeatureGet
    ensures var (filled, status) := FillFeature(s.contexts[u], report);
            var t := Finish(s, u, filled, status);
            && Listed(t) && Advanced(s, t) && u !in t.pendingFeatureGet
            && Answered(s.contexts[u], t.contexts[u], report)
            && (forall x :: x in s.contexts && x != u ==> t.contexts[x] == s.contexts[x])
            && (forall x :: x in t.pendingFeatureGet <==> x in s.pendingFeatureGet && x != u)
  {
    hide Listed, Advanced, Finish;
    PendingFeatureLive(s, u);
    var (filled, status) := FillFeature(s.contexts[u], report);
    FinishListed(s, u, filled, status);
    FinishFills(s, u, filled, status);
  }

  /** A reply completes those of the URBs `us` that wait for its id and leaves all others alone. */
  lemma {:induction false} CompleteMatchingListed(s: HcdState, us: seq<UrbId>, report: Report)
    requires Listed(s) && Distinct(us) && report != []
    requires forall u :: u in us ==> u in s.pendingFeatureGet
    ensures var t := CompleteMatching(s, us, report);
            && Listed(t) && Advanced(s, t)
            && (forall u :: u in s.contexts && u in us && s.contexts[u].kind == FeatureGet(report[0]) ==>
                  u !in t.pendingFeatureGet && Answered(s.contexts[u], t.contexts[u], report))
            && (forall u :: u in s.contexts && !(u in us && s.contexts[u].kind == FeatureGet(report[0])) ==>
                  t.contexts[u] == s.contexts[u])
    decreases |us|
  {
    hide Listed, Answered, QueueGiveback, Advanced;
    AdvancedSelf(s);
    if us != [] {
      var u := us[0];
      assert u in s.pendingFeatureGet;
      PendingFeatureLive(s, u);
      assert forall x :: x in us[1..] ==> x in us && x != u;
      assert forall x :: x in us ==> x == u || x in us[1..];
      if s.contexts[u].kind == FeatureGet(report[0]) {
        var (filled, status) := FillFeature(s.contexts[u], report);
        AnswerOne(s, u, report);
        var t := Finish(s, u, filled, status);
        AdvancedShrinks(s, t);
        CompleteMatchingListed(t, us[1..], report);
        AdvancedTransitive(s, t, CompleteMatching(t, us[1..], report));
        AdvancedShrinks(t, CompleteMatching(t, us[1..], report));
      } else {
        CompleteMatchingListed(s, us[1..], report);
      }
    }
  }

  lemma AdvancedSelf(s: HcdState)
    ensures Advanced(s, s)
  {
  }

  lemma AdvancedShrinks(s: HcdState, t: HcdState)
    requires Advanced(s, t)
    ensures t.contexts.Keys == s.contexts.Keys
    ensures forall u :: u in t.pendingFeatureGet ==> u in s.pendingFeatureGet
  {
  }

  lemma PendingFeatureLive(s: HcdState, u: UrbId)
    requires Listed(s) && u in s.pendingFeatureGet
    ensures u in s.contexts && s.contexts[u].phase == PendingFeatureGet
  {
  }

  lemma AdvancedRest(s: HcdState, t: HcdState)
    requires Advanced(s, t) && Rest(s)
    ensures Rest(t)
  {
    AdvancedKeeps(s, t);
    AdvancedServes(s, t);
  }

  lemma AdvancedInv(s: HcdState, t: HcdState)
    requires Inv(s) && Advanced(s, t) && Listed(t)
    ensures Inv(t)
  {
    AdvancedRest(s, t);
    AdvancedKeeps(s, t);
  }

  lemma LinkOrdered(s: HcdState, urb: Submission)
    requires Ordered(s) && s.nextId !in s.contexts
    ensures Ordered(Link(s, urb))
  {
    var l := Link(s, urb);
    forall i | 0 <= i < |s.completedUrbs| ensures l.contexts[s.completedUrbs[i]] == s.contexts[s.completedUrbs[i]] {
      assert s.completedUrbs[i] in s.completedUrbs;
    }
  }

  lemma LinkPlaced(s: HcdState, urb: Submission)
    requires Placed(s) && s.nextId !in s.contexts
    ensures Placed(Link(s, urb))
  {
  }

  lemma LinkTruthful(s: HcdState, urb: Submission)
    requires AllTruthful(s) && s.nextId !in s.contexts
    ensures AllTruthful(Link(s, urb))
  {
    var l := Link(s, urb);
    forall x | x in l.contexts && Outcome(l, x) == Some(0) ensures Truthful(l.written, l.contexts[x]) {
      if x in s.contexts {
        assert Outcome(s, x) == Some(0);
      }
    }
  }

  lemma LinkServed(s: HcdState, urb: Submission)
    requires FeatureServed(s) && s.nextId !in s.contexts
    ensures FeatureServed(Link(s, urb))
  {
    var l := Link(s, urb);
    forall u | u in l.pendingFeatureGet ensures StillWaits(l, u) {
      assert StillWaits(s, u);
      WaitsAside(s, l, u);
    }
    forall u | At(l, u, Missed) ensures MissedLookUp(l, u) {
      assert At(s, u, Missed);
      WaitsAside(s, l, u);
    }
  }

  lemma LinkAccounted(s: HcdState, urb: Submission)
    requires Accounted(s)
    ensures Accounted(Link(s, urb))
  {
  }

  lemma LinkStaged(s: HcdState, urb: Submission)
    requires Staged(s)
    ensures Staged(Link(s, urb))
  {
  }

  lemma LinkKeepsInv(s: HcdState, urb: Submission)
    requires Inv(s)
    ensures Inv(Link(s, urb))
  {
    hide Ordered, Placed, Sleeps, AllTruthful, FeatureServed, Accounted, Staged, PacedStreams, HidFresh;
    if !s.stopping {
      NextIsNew(s);
      LinkOrdered(s, urb);
      LinkPlaced(s, urb);
      LinkTruthful(s, urb);
      LinkServed(s, urb);
      LinkAccounted(s, urb);
      LinkStaged(s, urb);
      LinkFresh(s, urb);
      PacedAside(s, Link(s, urb));
    }
  }

  lemma NextIsNew(s: HcdState)
    requires Accounted(s)
    ensures s.nextId !in s.contexts
  {
  }

  lemma LinkFresh(s: HcdState, urb: Submission)
    requires s.nextId !in s.contexts
    ensures HidFresh(s) ==> HidFresh(Link(s, urb))
    ensures Ordered(s) && Sleeps(s) ==> Sleeps(Link(s, urb))
  {
    if Ordered(s) && s.completedUrbs != [] {
      assert s.completedUrbs[0] in s.completedUrbs;
    }
  }

  /** Once its URB is queued or waits, the thread inside urb_enqueue may leave. */
  lemma UnstageKeepsInv(s: HcdState, u: UrbId)
    requires Inv(s) && (u in s.contexts ==> s.contexts[u].phase != Active)
    ensures Inv(s.(stages := s.stages - {u}))
  {
    hide Placed, Ordered, AllTruthful, Accounted, Staged, FeatureServed, HidFresh, PacedStreams;
    var t := s.(stages := s.stages - {u});
    UnstageTruthful(s, t, u);
    UnstageServes(s, t, u);
    FreshAside(s, t);
    PacedAside(s, t);
  }

  lemma UnstageTruthful(s: HcdState, t: HcdState, u: UrbId)
    requires t == s.(stages := s.stages - {u}) && (u in s.contexts ==> s.contexts[u].phase != Active)
    ensures Placed(s) ==> Placed(t)
    ensures Ordered(s) ==> Ordered(t)
    ensures AllTruthful(s) ==> AllTruthful(t)
    ensures Accounted(s) ==> Accounted(t)
    ensures Staged(s) ==> Staged(t)
  {
    hide Truthful;
    if AllTruthful(s) {
      forall x | x in t.contexts && Outcome(t, x) == Some(0) ensures Truthful(t.written, t.contexts[x]) {
        assert Outcome(s, x) == Some(0);
      }
    }
  }

  lemma UnstageServes(s: HcdState, t: HcdState, u: UrbId)
    requires t == s.(stages := s.stages - {u}) && FeatureServed(s)
    ensures FeatureServed(t)
  {
    hide CachedSince, WriterFor, StillWaits, MissedLookUp;
    forall x | x in t.pendingFeatureGet ensures StillWaits(t, x) {
      assert StillWaits(s, x);
      WaitsOn(s, t, x);
    }
    forall x | At(t, x, Missed) ensures MissedLookUp(t, x) {
      assert At(s, x, Missed);
      WaitsOn(s, t, x);
    }
  }

  /** The thread inside urb_enqueue decides on a status. */
  lemma DecideKeepsInv(s: HcdState, u: UrbId, c: UrbContext, status: int)
    requires Inv(s) && u in s.contexts && s.contexts[u].phase == Active && c.phase == Active
    requires SameRequest(s.contexts[u], c)
    requires status == 0 ==> Truthful(s.written, c)
    ensures Inv(s.(contexts := s.contexts[u := c], stages := s.stages[u := Decided(status)]))
  {
    DecideListed(s, u, c, status);
    DecideRest(s, u, c, status);
    hide Listed, Rest;
  }

  lemma DecideListed(s: HcdState, u: UrbId, c: UrbContext, status: int)
    requires Listed(s) && u in s.contexts && s.contexts[u].phase == Active && c.phase == Active
    requires status == 0 ==> Truthful(s.written, c)
    ensures Listed(s.(contexts := s.contexts[u := c], stages := s.stages[u := Decided(status)]))
  {
    var t := s.(contexts := s.contexts[u := c], stages := s.stages[u := Decided(status)]);
    FillKeepsOrder(s, u, c);
    assert Placed(t);
    forall x | x in t.contexts && Outcome(t, x) == Some(0) ensures Truthful(t.written, t.contexts[x]) {
      if x != u {
        assert Outcome(s, x) == Some(0);
      }
    }
  }

  lemma DecideRest(s: HcdState, u: UrbId, c: UrbContext, status: int)
    requires Rest(s) && u in s.contexts && SameRequest(s.contexts[u], c)
    ensures Rest(s.(contexts := s.contexts[u := c], stages := s.stages[u := Decided(status)]))
  {
    hide CachedSince, WriterFor, StillWaits, MissedLookUp, PacedStreams;
    var t := s.(contexts := s.contexts[u := c], stages := s.stages[u := Decided(status)]);
    PacedAside(s, t);
    forall x | x in t.pendingFeatureGet ensures StillWaits(t, x) {
      assert StillWaits(s, x);
      WaitsOn(s, t, x);
    }
    forall x | At(t, x, Missed) ensures MissedLookUp(t, x) {
      assert At(s, x, Missed);
      WaitsOn(s, t, x);
    }
  }

  lemma SettleKeepsInv(s: HcdState, u: UrbId)
    requires Inv(s)
    ensures Inv(Settle(s, u))
  {
    if u in s.contexts && s.contexts[u].phase == Active && u in s.stages && s.stages[u].Decided? {
      var t := QueueGiveback(s, u, s.stages[u].status);
      assert Outcome(s, u) == Some(s.stages[u].status);
      GivebackListed(s, u, s.stages[u].status);
      assert t.contexts[u].phase == PendingGiveback;
      hide Listed, Rest, QueueGiveback, Staged;
      AdvancedInv(s, t);
      UnstageKeepsInv(t, u);
    }
  }

  lemma AskKeepsInv(s: HcdState, u: UrbId, status: int)
    requires Inv(s)
    ensures Inv(Ask(s, u, status))
  {
    hide Inv, Listed, QueueGiveback;
    if u in s.stages && s.stages[u] == Asking {
      AskingIsNotActive(s, u);
      InvSleeps(s);
      if status != 0 && u in s.contexts {
        FailKeepsInv(s, u, status);
        UnstageKeepsInv(QueueGiveback(s, u, status), u);
      } else {
        UnstageKeepsInv(s, u);
        AsideKeepsInv(s.(stages := s.stages - {u}), Ask(s, u, status));
      }
    }
  }

  lemma InvSleeps(s: HcdState)
    requires Inv(s)
    ensures Sleeps(s)
  {
  }

  lemma AskingIsNotActive(s: HcdState, u: UrbId)
    requires Inv(s) && u in s.stages && s.stages[u] == Asking
    ensures u in s.contexts ==> s.contexts[u].phase != Active
  {
  }

  lemma FailKeepsInv(s: HcdState, u: UrbId, status: int)
    requires Inv(s) && u in s.contexts && s.contexts[u].phase != Active && status != 0
    ensures var t := QueueGiveback(s, u, status);
            Inv(t) && u in t.contexts && t.contexts[u].phase != Active && t.stages == s.stages
  {
    InvListed(s);
    hide Inv, Listed, Advanced;
    if Waiting(s, u) {
      GivebackListed(s, u, status);
      AdvancedInv(s, QueueGiveback(s, u, status));
    }
  }

  /** The invariant does not look at the connection or at what happened to freed contexts, and of the
      thread only at its sleep. */
  lemma AsideKeepsInv(s: HcdState, t: HcdState)
    requires Inv(s) && Sleeps(t)
    requires t == s.(connected := t.connected, asleepUntil := t.asleepUntil, threadStopped := t.threadStopped,
                     usedFreed := t.usedFreed)
    ensures Inv(t)
  {
    hide Placed, Ordered, Sleeps, Accounted, Staged, AllTruthful, FeatureServed, HidFresh, PacedStreams;
    TruthfulAside(s, t);
    ServedAside(s, t);
    ListsAside(s, t);
    FreshAside(s, t);
    PacedAside(s, t);
  }

  lemma ScheduleMeasured(slots: seq<Slot>, next: nat, now: nat, lengths: seq<nat>, input: bool)
    requires Paced(slots, next) && Measured(slots, input)
    ensures var slot := Schedule(next, now, DurationUs(lengths, input), PcmBytes(lengths, input));
            Paced(slots + [slot], slot.ready) && Measured(slots + [slot], input)
  {
    ScheduleKeepsPaced(slots, next, now, DurationUs(lengths, input), PcmBytes(lengths, input));
    DurationCoversPcm(lengths, input);
  }

  /** Nothing of the lists and stages depends on the other fields. */
  lemma ListsAside(s: HcdState, t: HcdState)
    requires t.contexts == s.contexts && t.pendingHidIn == s.pendingHidIn && t.pendingFeatureGet == s.pendingFeatureGet
    requires t.completedUrbs == s.completedUrbs && t.giving == s.giving && t.arrivals == s.arrivals
    requires t.returned == s.returned && t.nextId == s.nextId && t.stages == s.stages && t.marks == s.marks
    ensures Placed(s) ==> Placed(t)
    ensures Ordered(s) ==> Ordered(t)
    ensures t.asleepUntil == s.asleepUntil || t.asleepUntil == None ==> Sleeps(s) ==> Sleeps(t)
    ensures Accounted(s) ==> Accounted(t)
    ensures Staged(s) ==> Staged(t)
  {
  }

  lemma FreshAside(s: HcdState, t: HcdState)
    requires HidFresh(s) && t.contexts == s.contexts && t.pendingHidIn == s.pendingHidIn
    requires t.inputPackets == s.inputPackets && t.written == s.written && t.delivered == s.delivered
    ensures HidFresh(t)
  {
  }

  lemma PacedAside(s: HcdState, t: HcdState)
    requires PacedStreams(s)
    requires t.isoOut == s.isoOut && t.isoIn == s.isoIn && t.hidIn == s.hidIn && t.hidInSince == s.hidInSince
    requires t.nextIsoOutReady == s.nextIsoOutReady && t.nextIsoInReady == s.nextIsoInReady
    requires t.nextHidInReady == s.nextHidInReady && t.hidInIntervalUs == s.hidInIntervalUs
    ensures PacedStreams(t)
  {
  }

  /** Everything but pacing ignores the pacing fields. */
  lemma StreamsAside(s: HcdState, t: HcdState)
    requires t == s.(isoOut := t.isoOut, isoIn := t.isoIn, hidIn := t.hidIn, nextIsoOutReady := t.nextIsoOutReady,
                     nextIsoInReady := t.nextIsoInReady, nextHidInReady := t.nextHidInReady)
    requires Inv(s) && PacedStreams(t)
    ensures Inv(t)
  {
    hide Placed, Ordered, Accounted, Staged, AllTruthful, FeatureServed, PacedStreams;
    ListsAside(s, t);
    ServedAside(s, t);
    TruthfulAside(s, t);
  }

  lemma ServedAside(s: HcdState, t: HcdState)
    requires FeatureServed(s)
    requires t.featureCache == s.featureCache && t.pendingFeatureGet == s.pendingFeatureGet
    requires t.contexts == s.contexts && t.replying == s.replying && t.stages == s.stages
    requires t.cacheLog == s.cacheLog && t.served == s.served && t.marks == s.marks
    ensures FeatureServed(t)
  {
    forall x | x in t.pendingFeatureGet ensures StillWaits(t, x) {
      assert StillWaits(s, x);
      WaitsAside(s, t, x);
    }
    forall x | At(t, x, Missed) ensures MissedLookUp(t, x) {
      assert At(s, x, Missed);
      WaitsAside(s, t, x);
    }
  }

  lemma TruthfulAside(s: HcdState, t: HcdState)
    requires AllTruthful(s) && t.contexts == s.contexts && t.stages == s.stages && s.written <= t.written
    ensures AllTruthful(t)
  {
    assert forall r :: r in s.written ==> r in t.written;
    forall x | x in t.contexts && Outcome(t, x) == Some(0) ensures Truthful(t.written, t.contexts[x]) {
      assert Outcome(s, x) == Some(0);
    }
  }

  lemma ScheduleUrbKeepsInv(s: HcdState, u: UrbId, now: nat)
    requires Inv(s)
    ensures Inv(ScheduleUrb(s, u, now))
  {
    hide Inv, PacedStreams, ScheduleIso, ScheduleUrb;
    if At(s, u, Linked) && s.contexts[u].kind.Iso? {
      var lengths, input := s.contexts[u].kind.lengths, s.contexts[u].kind.input;
      InvScheduled(s, u);
      SchedulePaced(s, u, lengths, input, now);
      ScheduleTimes(s, u, lengths, input, now);
      var timed := ScheduleIso(s, u, lengths, input, now);
      var m := timed.(contexts := s.contexts);
      StreamsAside(s, m);
      DecideKeepsInv(m, u, timed.contexts[u], 0);
      ScheduledAs(s, u, now);
    } else {
      NotScheduled(s, u, now);
    }
  }

  lemma NotScheduled(s: HcdState, u: UrbId, now: nat)
    ensures !(At(s, u, Linked) && s.contexts[u].kind.Iso?) ==> ScheduleUrb(s, u, now) == s
  {
  }

  /** Scheduling changes nothing but the pacing and the URB's due time. */
  lemma ScheduleTimes(s: HcdState, u: UrbId, lengths: seq<nat>, input: bool, now: nat)
    requires u in s.contexts
    ensures var t := ScheduleIso(s, u, lengths, input, now);
            && t.contexts == s.contexts[u := s.contexts[u].(readyTime := ReadyTime(t.contexts, u))]
            && t.(contexts := s.contexts)
               == s.(isoOut := t.isoOut, isoIn := t.isoIn, nextIsoOutReady := t.nextIsoOutReady, nextIsoInReady := t.nextIsoInReady)
  {
    hide DurationUs, PcmBytes;
  }

  lemma InvScheduled(s: HcdState, u: UrbId)
    requires Inv(s) && At(s, u, Linked) && s.contexts[u].kind.Iso?
    ensures s.contexts[u].hasBuffer && PacedStreams(s)
  {
  }

  lemma ScheduledAs(s: HcdState, u: UrbId, now: nat)
    requires At(s, u, Linked) && s.contexts[u].kind.Iso?
    ensures var timed := ScheduleIso(s, u, s.contexts[u].kind.lengths, s.contexts[u].kind.input, now);
            ScheduleUrb(s, u, now) == timed.(contexts := s.contexts[u := timed.contexts[u]], stages := s.stages[u := Decided(0)])
  {
  }

  lemma SchedulePaced(s: HcdState, u: UrbId, lengths: seq<nat>, input: bool, now: nat)
    requires PacedStreams(s) && u in s.contexts
    ensures PacedStreams(ScheduleIso(s, u, lengths, input, now).(contexts := s.contexts))
  {
    if input {
      ScheduleMeasured(s.isoIn, s.nextIsoInReady, now, lengths, input);
    } else {
      ScheduleMeasured(s.isoOut, s.nextIsoOutReady, now, lengths, input);
    }
    hide Paced, Measured, DurationUs, PcmBytes;
  }

  /** Scheduling the report that is filled in keeps what does not concern the URB it goes to. */
  lemma FillHidAside(s: HcdState, m: HcdState, u: UrbId, index: nat, now: nat)
    requires Inv(s) && index < |s.written| && u in s.contexts
    requires m == FillHidIn(s, u, index, now).(contexts := s.contexts, inputPackets := m.inputPackets)
    requires HidFresh(m) && (s.stopping ==> m.inputPackets == [])
    ensures Inv(m)
  {
    hide Placed, Ordered, Accounted, Staged, AllTruthful, FeatureServed, HidFresh;
    ScheduleKeepsPaced(s.hidIn, s.nextHidInReady, now, s.hidInIntervalUs, 0);
    ListsAside(s, m);
    ServedAside(s, m);
    TruthfulAside(s, m);
  }

  /** A written report filled in makes a truthful success. */
  lemma FilledTruthful(s: HcdState, u: UrbId, index: nat)
    requires HidFresh(s) && u in s.contexts && s.contexts[u].kind == HidIn && index < |s.written|
    ensures Truthful(s.written, FillInput(s.contexts[u], s.written[index]))
    ensures SameRequest(s.contexts[u], FillInput(s.contexts[u], s.written[index]))
  {
    assert s.written[index] != [] && s.written[index] in s.written;
  }

  /** Taking the buffered report keeps the input fresh. */
  lemma BufferedFresh(s: HcdState, m: HcdState, u: UrbId, index: nat, now: nat)
    requires HidFresh(s) && s.inputPackets != [] && index == |s.written| - 1 && u in s.contexts
    requires m == FillHidIn(s, u, index, now).(contexts := s.contexts, inputPackets := s.inputPackets[1..])
    ensures HidFresh(m)
  {
  }

  lemma InvFresh(s: HcdState)
    requires Inv(s)
    ensures HidFresh(s) && (s.stopping ==> s.inputPackets == [] && s.pendingFeatureGet == []) && |s.inputPackets| <= 1
    ensures s.pendingHidIn != [] ==> s.inputPackets == []
    ensures forall i :: 0 <= i < |s.delivered| ==> s.delivered[i] < |s.written|
  {
  }

  lemma PopBufferedKeepsInv(s: HcdState, u: UrbId, now: nat)
    requires Inv(s) && At(s, u, Linked) && s.contexts[u].kind.HidIn? && s.inputPackets != [] && s.written != []
    ensures Inv(PopInput(s, u, now))
  {
    hide Inv, HidFresh, PopInput, FillHidIn, FillInput, Truthful;
    InvFresh(s);
    var index := |s.written| - 1;
    var filled := FillHidIn(s, u, index, now);
    var m := filled.(contexts := s.contexts, inputPackets := s.inputPackets[1..]);
    BufferedFresh(s, m, u, index, now);
    FillHidAside(s, m, u, index, now);
    FilledTruthful(s, u, index);
    FilledAs(s, u, index, now);
    TruthfulWhenever(s.written, FillInput(s.contexts[u], s.written[index]), filled.contexts[u]);
    DecideKeepsInv(m, u, filled.contexts[u], 0);
    PoppedAs(s, u, now);
  }

  lemma FilledAs(s: HcdState, u: UrbId, index: nat, now: nat)
    requires u in s.contexts && index < |s.written|
    ensures var t := FillHidIn(s, u, index, now);
            && t.contexts.Keys == s.contexts.Keys
            && t.contexts[u] == FillInput(s.contexts[u], s.written[index]).(readyTime := t.contexts[u].readyTime)
            && t.contexts[u].phase == s.contexts[u].phase && SameRequest(s.contexts[u], t.contexts[u])
            && t.written == s.written && t.stages == s.stages
  {
  }

  lemma PoppedAs(s: HcdState, u: UrbId, now: nat)
    requires At(s, u, Linked) && s.contexts[u].kind.HidIn? && s.inputPackets != [] && s.written != []
    ensures var filled := FillHidIn(s, u, |s.written| - 1, now);
            && u in filled.contexts
            && PopInput(s, u, now) == filled.(contexts := s.contexts[u := filled.contexts[u]],
                                              inputPackets := s.inputPackets[1..], stages := s.stages[u := Decided(0)])
  {
    hide Schedule, FillInput;
  }

  lemma PendHidListed(s: HcdState, u: UrbId)
    requires Listed(s) && u in s.contexts && s.contexts[u].phase == Active
    ensures Listed(s.(contexts := s.contexts[u := s.contexts[u].(phase := PendingHidIn)], pendingHidIn := s.pendingHidIn + [u]))
  {
    var t := s.(contexts := s.contexts[u := s.contexts[u].(phase := PendingHidIn)], pendingHidIn := s.pendingHidIn + [u]);
    FillKeepsOrder(s, u, t.contexts[u]);
    assert Placed(t);
    forall x | x in t.contexts && Outcome(t, x) == Some(0) ensures Truthful(t.written, t.contexts[x]) {
      assert x != u && Outcome(s, x) == Some(0);
    }
  }

  lemma PendHidRest(s: HcdState, u: UrbId)
    requires Rest(s) && u in s.contexts && s.contexts[u].kind.HidIn? && s.inputPackets == []
    ensures var t := s.(contexts := s.contexts[u := s.contexts[u].(phase := PendingHidIn)], pendingHidIn := s.pendingHidIn + [u]);
            Rest(t) && (Staged(s) ==> Staged(t))
  {
    var m := s.(contexts := s.contexts[u := s.contexts[u].(phase := PendingHidIn)]);
    var t := m.(pendingHidIn := s.pendingHidIn + [u]);
    hide FeatureServed, PacedStreams, Accounted, Staged;
    AmendRest(s, u, m.contexts[u]);
    ServedAside(m, t);
    PacedAside(m, t);
    RestFrame(m, t);
  }

  lemma RestFrame(s: HcdState, t: HcdState)
    requires t.contexts == s.contexts && t.returned == s.returned && t.nextId == s.nextId
    requires t.stages == s.stages && t.marks == s.marks
    ensures Accounted(s) ==> Accounted(t)
    ensures Staged(s) ==> Staged(t)
  {
  }

  lemma PopNothingKeepsInv(s: HcdState, u: UrbId, now: nat)
    requires Inv(s) && At(s, u, Linked) && s.contexts[u].kind.HidIn? && s.inputPackets == []
    ensures Inv(PopInput(s, u, now))
  {
    var t := s.(contexts := s.contexts[u := s.contexts[u].(phase := PendingHidIn)], pendingHidIn := s.pendingHidIn + [u]);
    hide Listed, Rest, Staged;
    PendHidListed(s, u);
    PendHidRest(s, u);
    UnstageKeepsInv(t, u);
  }

  lemma PopInputKeepsInv(s: HcdState, u: UrbId, now: nat)
    requires Inv(s)
    ensures Inv(PopInput(s, u, now))
  {
    if At(s, u, Linked) && s.contexts[u].kind.HidIn? {
      InvFresh(s);
      hide Inv;
      if s.inputPackets != [] {
        PopBufferedKeepsInv(s, u, now);
      } else {
        PopNothingKeepsInv(s, u, now);
      }
    }
  }

  lemma LookUpKeepsInv(s: HcdState, u: UrbId)
    requires Inv(s)
    ensures Inv(LookUp(s, u))
  {
    if At(s, u, Linked) && s.contexts[u].kind.FeatureGet? {
      var id := s.contexts[u].kind.reportId;
      if id in s.featureCache {
        var (filled, status) := FillFeature(s.contexts[u], s.featureCache[id]);
        DecideKeepsInv(s, u, filled, status);
      } else {
        MissKeepsInv(s, u);
      }
    }
  }

  lemma MissKeepsInv(s: HcdState, u: UrbId)
    requires Inv(s) && At(s, u, Linked) && s.contexts[u].kind.FeatureGet?
    requires s.contexts[u].kind.reportId !in s.featureCache
    ensures Inv(LookUp(s, u))
  {
    var t := LookUp(s, u);
    MissServed(s, u);
    MissListed(s, u);
    MissStaged(s, u);
    hide Placed, Ordered, AllTruthful, FeatureServed, HidFresh, PacedStreams, Staged, Accounted;
    AccountedAside(s, t);
  }

  lemma AccountedAside(s: HcdState, t: HcdState)
    requires Accounted(s) && t.contexts == s.contexts && t.returned == s.returned && t.nextId == s.nextId
    ensures Accounted(t)
  {
  }

  lemma MissStaged(s: HcdState, u: UrbId)
    requires Staged(s) && At(s, u, Linked) && s.contexts[u].kind.FeatureGet?
    ensures Staged(s.(stages := s.stages[u := Missed], marks := s.marks[u := Marks(|s.cacheLog|, 0, 0)]))
  {
  }

  lemma MissListed(s: HcdState, u: UrbId)
    requires Listed(s) && At(s, u, Linked)
    ensures Listed(s.(stages := s.stages[u := Missed], marks := s.marks[u := Marks(|s.cacheLog|, 0, 0)]))
  {
    var t := s.(stages := s.stages[u := Missed], marks := s.marks[u := Marks(|s.cacheLog|, 0, 0)]);
    forall x | x in t.contexts && Outcome(t, x) == Some(0) ensures Truthful(t.written, t.contexts[x]) {
      assert Outcome(s, x) == Some(0);
    }
  }

  lemma MissServed(s: HcdState, u: UrbId)
    requires FeatureServed(s) && Placed(s) && At(s, u, Linked) && s.contexts[u].kind.FeatureGet?
    requires s.contexts[u].kind.reportId !in s.featureCache
    ensures FeatureServed(s.(stages := s.stages[u := Missed], marks := s.marks[u := Marks(|s.cacheLog|, 0, 0)]))
  {
    var t := s.(stages := s.stages[u := Missed], marks := s.marks[u := Marks(|s.cacheLog|, 0, 0)]);
    assert s.cacheLog[..|s.cacheLog|] == s.cacheLog;
    assert MissedLookUp(t, u);
    forall x | x in t.pendingFeatureGet ensures StillWaits(t, x) {
      assert StillWaits(s, x) && x != u;
      WaitsAside(s, t, x);
    }
    forall x | At(t, x, Missed) ensures MissedLookUp(t, x) {
      if x != u {
        assert At(s, x, Missed);
        WaitsAside(s, t, x);
      }
    }
  }

  lemma DeferKeepsInv(s: HcdState, u: UrbId)
    requires Inv(s)
    ensures Inv(Defer(s, u))
  {
    if At(s, u, Missed) && u in s.marks {
      assert Placed(s);
      hide Listed, Rest, Staged;
      if s.stopping {
        assert s.contexts[u := s.contexts[u]] == s.contexts;
        DecideKeepsInv(s, u, s.contexts[u], -ESHUTDOWN);
      } else {
        DeferListed(s, u);
        DeferRest(s, u);
      }
    }
  }

  lemma DeferListed(s: HcdState, u: UrbId)
    requires Listed(s) && At(s, u, Missed) && u in s.marks && !s.stopping
    ensures Listed(Defer(s, u))
  {
    var t := Defer(s, u);
    FillKeepsOrder(s, u, t.contexts[u]);
    assert Placed(t);
    forall x | x in t.contexts && Outcome(t, x) == Some(0) ensures Truthful(t.written, t.contexts[x]) {
      assert x != u && Outcome(s, x) == Some(0);
    }
  }

  lemma DeferRest(s: HcdState, u: UrbId)
    requires Rest(s) && Placed(s) && At(s, u, Missed) && u in s.marks && !s.stopping
    ensures Rest(Defer(s, u))
    ensures Staged(s) ==> Staged(Defer(s, u))
  {
    hide Accounted, PacedStreams, FeatureServed, HidFresh, Staged, Placed;
    var t := Defer(s, u);
    DeferServes(s, u);
    DeferStaged(s, u);
    DeferFresh(s, u);
    PacedAside(s, t);
  }

  lemma DeferFresh(s: HcdState, u: UrbId)
    requires At(s, u, Missed) && u in s.marks && !s.stopping
    ensures HidFresh(s) ==> HidFresh(Defer(s, u))
    ensures Accounted(s) ==> Accounted(Defer(s, u))
  {
  }

  lemma DeferStaged(s: HcdState, u: UrbId)
    requires At(s, u, Missed) && u in s.marks && !s.stopping
    ensures Staged(s) ==> Staged(Defer(s, u))
  {
  }

  lemma DeferServes(s: HcdState, u: UrbId)
    requires FeatureServed(s) && Placed(s) && At(s, u, Missed) && u in s.marks && !s.stopping
    ensures FeatureServed(Defer(s, u))
  {
    hide CachedSince;
    var t := Defer(s, u);
    assert MissedLookUp(s, u);
    forall x | x in t.pendingFeatureGet ensures StillWaits(t, x) {
      if x != u {
        assert StillWaits(s, x);
        WaitsAside(s, t, x);
      }
    }
    forall x | At(t, x, Missed) ensures MissedLookUp(t, x) {
      assert At(s, x, Missed);
      WaitsAside(s, t, x);
    }
  }

  /** Recording a report in the history of writes. */
  lemma LoggedKeeps(s: HcdState, logged: HcdState, report: Report)
    requires Inv(s) && logged == s.(written := s.written + [report], inputPackets := logged.inputPackets)
    requires HidFresh(logged) && !s.stopping
    ensures Inv(logged)
  {
    hide Placed, Ordered, Accounted, Staged, AllTruthful, FeatureServed, HidFresh;
    TruthfulAside(s, logged);
    ServedAside(s, logged);
    ListsAside(s, logged);
  }

  /** The buffer holds what is written, or an URB waits and it is empty. */
  lemma BufferFresh(s: HcdState, report: Report, packets: seq<Report>)
    requires HidFresh(s) && report != []
    requires packets == [report] || (packets == [] && s.inputPackets == [])
    requires packets == [report] ==> s.pendingHidIn == []
    ensures HidFresh(s.(written := s.written + [report], inputPackets := packets))
  {
  }

  lemma WriteBufferedKeepsInv(s: HcdState, report: Report, now: nat)
    requires Inv(s) && ValidInputReport(report) && !s.stopping && s.pendingHidIn == []
    ensures Inv(WriteInput(s, report, now))
  {
    hide Inv, HidFresh;
    InvFresh(s);
    BufferFresh(s, report, WriteInput(s, report, now).inputPackets);
    LoggedKeeps(s, WriteInput(s, report, now), report);
  }

  lemma InvListed(s: HcdState)
    requires Inv(s)
    ensures Listed(s)
  {
  }

  lemma PendingHead(s: HcdState)
    requires Inv(s) && s.pendingHidIn != []
    ensures s.pendingHidIn[0] in s.contexts
    ensures s.contexts[s.pendingHidIn[0]].kind == HidIn && s.contexts[s.pendingHidIn[0]].phase == PendingHidIn
  {
    assert s.pendingHidIn[0] in s.pendingHidIn;
  }

  lemma WriteCompletingKeepsInv(s: HcdState, report: Report, now: nat)
    requires Inv(s) && ValidInputReport(report) && !s.stopping && s.pendingHidIn != []
    ensures Inv(WriteInput(s, report, now))
  {
    hide Inv, HidFresh;
    var logged := s.(written := s.written + [report]);
    var u, index := s.pendingHidIn[0], |s.written|;
    PendingHead(s);
    InvFresh(s);
    BufferFresh(s, report, []);
    LoggedKeeps(s, logged, report);
    var m := FillHidIn(logged, u, index, now).(contexts := s.contexts);
    DeliverFresh(logged, m, u, index, now);
    FillHidAside(logged, m, u, index, now);
    FinishHidKeepsInv(logged, m, u, index, now);
    assert s.inputPackets == [];
  }

  lemma DeliverFresh(s: HcdState, m: HcdState, u: UrbId, index: nat, now: nat)
    requires HidFresh(s) && s.inputPackets == [] && s.written != [] && index == |s.written| - 1 && u in s.contexts
    requires m == FillHidIn(s, u, index, now).(contexts := s.contexts)
    requires forall i :: 0 <= i < |s.delivered| ==> s.delivered[i] < index
    ensures HidFresh(m)
  {
  }

  lemma FinishHidKeepsInv(s: HcdState, m: HcdState, u: UrbId, index: nat, now: nat)
    requires Inv(s) && Inv(m) && index < |s.written|
    requires u in s.contexts && s.contexts[u].kind == HidIn && s.contexts[u].phase == PendingHidIn
    requires m == FillHidIn(s, u, index, now).(contexts := s.contexts)
    ensures Inv(QueueGiveback(FillHidIn(s, u, index, now), u, 0))
  {
    hide Inv, Listed, HidFresh, Advanced, QueueGiveback, Truthful;
    InvFresh(s);
    InvListed(m);
    FilledTruthful(s, u, index);
    var c := FillHidIn(s, u, index, now).contexts[u];
    assert FillHidIn(s, u, index, now) == m.(contexts := m.contexts[u := c]);
    TruthfulWhenever(s.written, FillInput(s.contexts[u], s.written[index]), c);
    FinishListed(m, u, c, 0);
    AdvancedInv(m, Finish(m, u, c, 0));
  }

  lemma TruthfulWhenever(written: seq<Report>, c: UrbContext, d: UrbContext)
    requires Truthful(written, c) && d.kind == c.kind && d.hasBuffer == c.hasBuffer && d.bufferLength == c.bufferLength
    requires d.reply == c.reply
    ensures Truthful(written, d)
  {
  }

  lemma WriteInputKeepsInv(s: HcdState, report: Report, now: nat)
    requires Inv(s)
    ensures Inv(WriteInput(s, report, now))
  {
    if ValidInputReport(report) && !s.stopping {
      if s.pendingHidIn != [] {
        WriteCompletingKeepsInv(s, report, now);
      } else {
        WriteBufferedKeepsInv(s, report, now);
      }
    }
  }

  /** Changing a context that is not Active, without moving it in the completed list. */
  lemma AmendListed(s: HcdState, t: HcdState, u: UrbId)
    requires Listed(s) && u in s.contexts && u in t.contexts && t == s.(contexts := s.contexts[u := t.contexts[u]])
    requires var c, d := s.contexts[u], t.contexts[u];
             && SameRequest(c, d) && d.phase == c.phase && d.arrival == c.arrival && d.queuedTimed == c.queuedTimed
             && d.reply == c.reply && (d.readyTime == c.readyTime || d.readyTime == 0)
             && (d.status == c.status || d.status != 0)
    ensures Listed(t)
  {
    AmendOrdered(s, t, u);
    AmendTruthful(s, t, u);
    hide Ordered, AllTruthful;
  }

  lemma AmendOrdered(s: HcdState, t: HcdState, u: UrbId)
    requires Ordered(s) && u in s.contexts && u in t.contexts && t == s.(contexts := s.contexts[u := t.contexts[u]])
    requires var c, d := s.contexts[u], t.contexts[u];
             && d.arrival == c.arrival && d.queuedTimed == c.queuedTimed && (d.readyTime == c.readyTime || d.readyTime == 0)
    ensures Ordered(t)
  {
    forall i, j | 0 <= i < j < |t.completedUrbs|
      ensures MayPrecede(t.contexts[t.completedUrbs[i]], t.contexts[t.completedUrbs[j]])
    {
      assert MayPrecede(s.contexts[s.completedUrbs[i]], s.contexts[s.completedUrbs[j]]);
    }
  }

  lemma AmendTruthful(s: HcdState, t: HcdState, u: UrbId)
    requires AllTruthful(s) && u in s.contexts && u in t.contexts && t == s.(contexts := s.contexts[u := t.contexts[u]])
    requires var c, d := s.contexts[u], t.contexts[u];
             SameRequest(c, d) && d.phase == c.phase && d.reply == c.reply && (d.status == c.status || d.status != 0)
    ensures AllTruthful(t)
  {
    hide Truthful;
    forall x | x in t.contexts && Outcome(t, x) == Some(0) ensures Truthful(t.written, t.contexts[x]) {
      assert Outcome(s, x) == Some(0);
      TruthfulWhenever(s.written, s.contexts[x], t.contexts[x]);
    }
  }

  lemma AmendRest(s: HcdState, u: UrbId, c: UrbContext)
    requires Rest(s) && u in s.contexts && c.kind == s.contexts[u].kind && c.phase != Active
    ensures Rest(s.(contexts := s.contexts[u := c]))
    ensures Staged(s) ==> Staged(s.(contexts := s.contexts[u := c]))
  {
    AmendServes(s, u, c);
    hide FeatureServed, PacedStreams;
  }

  lemma AmendServes(s: HcdState, u: UrbId, c: UrbContext)
    requires FeatureServed(s) && u in s.contexts && c.kind == s.contexts[u].kind && c.phase != Active
    ensures FeatureServed(s.(contexts := s.contexts[u := c]))
  {
    hide CachedSince, WriterFor, StillWaits, MissedLookUp;
    var t := s.(contexts := s.contexts[u := c]);
    forall x | x in t.pendingFeatureGet ensures StillWaits(t, x) {
      assert StillWaits(s, x);
      WaitsOn(s, t, x);
    }
    forall x | At(t, x, Missed) ensures MissedLookUp(t, x) {
      assert At(s, x, Missed);
      WaitsOn(s, t, x);
    }
  }

  lemma DequeueKeepsInv(s: HcdState, u: UrbId, status: int)
    requires Inv(s) && status != 0
    ensures Inv(Dequeue(s, u, status))
  {
    hide Listed, Rest, Staged;
    if u in s.contexts && !s.contexts[u].unlinked && s.contexts[u].phase != GivingBack && s.contexts[u].phase != Active {
      var m := s.(contexts := s.contexts[u := s.contexts[u].(unlinked := true)]);
      AmendListed(s, m, u);
      AmendRest(s, u, m.contexts[u]);
      if s.contexts[u].phase.PendingGiveback? {
        var t := m.(contexts := m.contexts[u := m.contexts[u].(status := status, readyTime := 0)]);
        AmendListed(m, t, u);
        AmendRest(m, u, t.contexts[u]);
      } else {
        GivebackListed(m, u, status);
        AdvancedInv(m, QueueGiveback(m, u, status));
      }
    }
  }

  /** Logging one more report: the id is cached, every other one as before. */
  lemma CachedLogged(s: HcdState, report: Report)
    requires CacheLogged(s) && ValidInputReport(report)
    ensures CacheLogged(CacheReply(s, report))
  {
    var t := CacheReply(s, report);
    var n := |s.cacheLog|;
    assert t.cacheLog[n] == Some(report[0]);
    forall id: u8 ensures CachedSince(t.cacheLog, 0, id) <==> id == report[0] || CachedSince(s.cacheLog, 0, id) {
      if id != report[0] && CachedSince(t.cacheLog, 0, id) {
        var k :| 0 <= k < |t.cacheLog| && t.cacheLog[k] == Some(id) && forall m :: k < m < |t.cacheLog| ==> t.cacheLog[m] != None;
        assert k < n && s.cacheLog[k] == Some(id);
        assert forall m :: k < m < n ==> s.cacheLog[m] == t.cacheLog[m];
      }
      if CachedSince(s.cacheLog, 0, id) {
        var k :| 0 <= k < n && s.cacheLog[k] == Some(id) && forall m :: k < m < n ==> s.cacheLog[m] != None;
        assert t.cacheLog[k] == Some(id);
      }
    }
  }

  /** What was missed at a look-up stays missed, whatever is logged later. */
  lemma LoggedMissed(s: HcdState, t: HcdState, u: UrbId)
    requires MissedLookUp(s, u) && t.contexts == s.contexts && t.marks == s.marks && s.cacheLog <= t.cacheLog
    ensures MissedLookUp(t, u)
  {
    assert t.cacheLog[..s.marks[u].missedAt] == s.cacheLog[..s.marks[u].missedAt];
  }

  lemma CacheReplyWaits(s: HcdState, report: Report, u: UrbId)
    requires StillWaits(s, u) && ValidInputReport(report)
    ensures StillWaits(CacheReply(s, report), u)
  {
    var t := CacheReply(s, report);
    var id := s.contexts[u].kind.reportId;
    LoggedMissed(s, t, u);
    forall k | t.marks[u].deferredAt <= k < |t.cacheLog| && t.cacheLog[k] == Some(id) ensures WriterFor(t, id) {
      if k < |s.cacheLog| {
        var r :| r in s.replying && r != [] && r[0] == id;
        assert r in t.replying;
      } else {
        assert report in t.replying;
      }
    }
  }

  lemma CacheReplyServes(s: HcdState, report: Report)
    requires FeatureServed(s)
    ensures FeatureServed(CacheReply(s, report))
  {
    hide CacheLogged, StillWaits, MissedLookUp;
    if ValidInputReport(report) {
      var t := CacheReply(s, report);
      CachedLogged(s, report);
      forall u | u in t.pendingFeatureGet ensures StillWaits(t, u) {
        CacheReplyWaits(s, report, u);
      }
      forall u | At(t, u, Missed) ensures MissedLookUp(t, u) {
        assert At(s, u, Missed);
        LoggedMissed(s, t, u);
      }
    }
  }

  lemma CacheReplyKeepsInv(s: HcdState, report: Report)
    requires Inv(s)
    ensures Inv(CacheReply(s, report))
  {
    hide Placed, Ordered, Accounted, Staged, AllTruthful, FeatureServed, HidFresh, PacedStreams;
    if ValidInputReport(report) {
      var t := CacheReply(s, report);
      CacheReplyServes(s, report);
      TruthfulAside(s, t);
      ListsAside(s, t);
      FreshAside(s, t);
      PacedAside(s, t);
    }
  }

  lemma ClearCacheKeepsInv(s: HcdState, t: HcdState)
    requires Inv(s)
    requires t == s.(featureCache := map[], cacheLog := s.cacheLog + [None],
                     hidInIntervalUs := t.hidInIntervalUs, hidInSince := t.hidInSince)
    requires PacedStreams(t)
    ensures Inv(t)
  {
    hide Placed, Ordered, Accounted, Staged, AllTruthful, FeatureServed, HidFresh, PacedStreams;
    ClearCacheServes(s, t);
    TruthfulAside(s, t);
    ListsAside(s, t);
    FreshAside(s, t);
  }

  lemma ClearCacheServes(s: HcdState, t: HcdState)
    requires FeatureServed(s)
    requires t.contexts == s.contexts && t.stages == s.stages && t.marks == s.marks && t.pendingFeatureGet == s.pendingFeatureGet
    requires t.featureCache == map[] && t.cacheLog == s.cacheLog + [None] && t.served == s.served && t.replying == s.replying
    ensures FeatureServed(t)
  {
    assert t.cacheLog[|s.cacheLog|] == None;
    assert CacheLogged(t);
    forall u | u in t.pendingFeatureGet ensures StillWaits(t, u) {
      assert StillWaits(s, u);
      LoggedMissed(s, t, u);
    }
    forall u | At(t, u, Missed) ensures MissedLookUp(t, u) {
      assert At(s, u, Missed);
      LoggedMissed(s, t, u);
    }
  }

  /** The writer that leaves has completed every URB waiting for its id. */
  lemma CompleteReplyServes(s: HcdState, t: HcdState, report: Report)
    requires FeatureServed(s) && report in s.replying && report != []
    requires var m := s.(replying := s.replying - multiset{report}, served := s.served + [report[0]]);
             Advanced(m, t)
    requires forall u :: u in s.pendingFeatureGet && s.contexts[u].kind == FeatureGet(report[0]) ==> u !in t.pendingFeatureGet
    ensures FeatureServed(t)
  {
    forall u | u in t.pendingFeatureGet ensures StillWaits(t, u) {
      assert StillWaits(s, u) && t.contexts[u].kind == s.contexts[u].kind;
      var id := s.contexts[u].kind.reportId;
      assert id != report[0];
      if WriterFor(s, id) {
        var r :| r in s.replying && r != [] && r[0] == id;
        assert r in t.replying;
      }
    }
    forall u | At(t, u, Missed) ensures MissedLookUp(t, u) {
      assert At(s, u, Missed);
      assert MissedLookUp(s, u);
    }
  }

  lemma CompleteReplyKeepsInv(s: HcdState, report: Report)
    requires Inv(s)
    ensures Inv(CompleteReply(s, report))
  {
    hide Inv, Listed, CompleteMatching;
    if report in s.replying && report != [] {
      if s.stopping {
        LeaveKeepsInv(s, report);
      } else {
        CompleteReplyMatches(s, report);
        ReplyKeepsRest(s, CompleteReply(s, report), report);
      }
    }
  }

  lemma ReplyKeepsRest(s: HcdState, t: HcdState, report: Report)
    requires Inv(s) && report in s.replying && report != [] && Listed(t)
    requires var m := s.(replying := s.replying - multiset{report}, served := s.served + [report[0]]);
             Advanced(m, t)
    requires forall u :: u in s.pendingFeatureGet && s.contexts[u].kind == FeatureGet(report[0]) ==> u !in t.pendingFeatureGet
    ensures Inv(t)
  {
    hide Placed, Ordered, AllTruthful, Accounted, Staged, FeatureServed, HidFresh, PacedStreams, Advanced;
    var m := s.(replying := s.replying - multiset{report}, served := s.served + [report[0]]);
    CompleteReplyServes(s, t, report);
    ListsAside(s, m);
    FreshAside(s, m);
    PacedAside(s, m);
    AdvancedKeeps(m, t);
  }

  lemma LeaveKeepsInv(s: HcdState, report: Report)
    requires Inv(s) && s.stopping
    ensures Inv(s.(replying := s.replying - multiset{report}))
  {
    var m := s.(replying := s.replying - multiset{report});
    forall u | At(m, u, Missed) ensures MissedLookUp(m, u) {
      assert At(s, u, Missed);
      assert MissedLookUp(s, u);
    }
    assert FeatureServed(m);
    TruthfulAside(s, m);
  }

  /** A feature reply completes all and only the URBs that wait for its id, each with the report unless
      it has nowhere to put it, and touches no other. */
  lemma CompleteReplyMatches(s: HcdState, report: Report)
    requires Inv(s) && report in s.replying && report != [] && !s.stopping
    ensures var m := s.(replying := s.replying - multiset{report}, served := s.served + [report[0]]);
            var t := CompleteReply(s, report);
            && Listed(t) && Advanced(m, t)
            && (forall u :: u in s.pendingFeatureGet && s.contexts[u].kind == FeatureGet(report[0]) ==>
                  u !in t.pendingFeatureGet && Answered(s.contexts[u], t.contexts[u], report))
            && (forall u :: u in s.contexts && !(u in s.pendingFeatureGet && s.contexts[u].kind == FeatureGet(report[0])) ==>
                  t.contexts[u] == s.contexts[u])
  {
    var m := s.(replying := s.replying - multiset{report}, served := s.served + [report[0]]);
    assert forall u :: u in s.pendingFeatureGet ==> u in s.contexts;
    TruthfulAside(s, m);
    assert Listed(m);
    hide Inv, Rest, Staged, Answered, CompleteMatching, Advanced;
    CompleteMatchingListed(m, s.pendingFeatureGet, report);
  }

  lemma DisconnectKeepsInv(s: HcdState)
    requires Inv(s)
    ensures Inv(Disconnect(s))
  {
    hide Inv, Listed, CancelPending, Advanced, PacedStreams;
    if !s.stopping {
      var c := CancelPending(s, -ESHUTDOWN);
      InvListed(s);
      CancelListed(s, -ESHUTDOWN);
      AdvancedInv(s, c);
      NothingPaced(Disconnect(s));
      FlushKeepsInv(c, Disconnect(s)) by {
        CancelKeepsFlag(s, c);
      }
    }
  }

  lemma CancelKeepsFlag(s: HcdState, t: HcdState)
    requires Advanced(s, t)
    ensures t.stopping == s.stopping
  {
  }

  lemma NothingPaced(s: HcdState)
    requires s.isoOut == [] && s.isoIn == [] && s.hidIn == [] && s.hidInSince == 0
    ensures PacedStreams(s)
  {
  }

  /** Dropping buffered input, pacing and the connection. */
  lemma FlushKeepsInv(s: HcdState, t: HcdState)
    requires Inv(s)
    requires t == s.(connected := false, inputPackets := [], isoOut := t.isoOut, isoIn := t.isoIn, hidIn := t.hidIn,
                     nextIsoOutReady := t.nextIsoOutReady, nextIsoInReady := t.nextIsoInReady,
                     nextHidInReady := t.nextHidInReady, hidInSince := t.hidInSince, stopping := t.stopping)
    requires PacedStreams(t) && (t.stopping ==> s.pendingFeatureGet == [])
    ensures Inv(t)
  {
    hide Placed, Ordered, Sleeps, Accounted, Staged, AllTruthful, FeatureServed, HidFresh, PacedStreams;
    TruthfulAside(s, t);
    ServedAside(s, t);
    ListsAside(s, t);
    FlushFresh(s, t);
  }

  lemma FlushFresh(s: HcdState, t: HcdState)
    requires HidFresh(s) && t.contexts == s.contexts && t.pendingHidIn == s.pendingHidIn
    requires t.inputPackets == [] && t.written == s.written && t.delivered == s.delivered
    ensures HidFresh(t)
  {
  }

  lemma StopKeepsInv(s: HcdState)
    requires Inv(s)
    ensures Inv(Stop(s))
    ensures Stop(s).pendingHidIn == [] && Stop(s).pendingFeatureGet == []
  {
    var c := CancelPending(s, -ESHUTDOWN);
    CancelListed(s, -ESHUTDOWN);
    AdvancedInv(s, c);
    CancelWhileStopping(s, true, -ESHUTDOWN);
    FlushKeepsInv(c, Stop(s));
  }

  lemma {:induction false} QueueWhileStopping(s: HcdState, us: seq<UrbId>, stopping: bool, status: int)
    ensures QueueAll(s.(stopping := stopping), us, status) == QueueAll(s, us, status).(stopping := stopping)
    decreases |us|
  {
    hide QueueGiveback;
    if us != [] {
      GivebackWhileStopping(s, us[0], stopping, status);
      QueueWhileStopping(QueueGiveback(s, us[0], status), us[1..], stopping, status);
    }
  }

  lemma GivebackWhileStopping(s: HcdState, u: UrbId, stopping: bool, status: int)
    ensures QueueGiveback(s.(stopping := stopping), u, status) == QueueGiveback(s, u, status).(stopping := stopping)
  {
    hide QueueGiveback;
    var t := s.(stopping := stopping);
    if Waiting(s, u) {
      QueuedAs(s, u, status);
      QueuedAs(t, u, status);
    } else {
      NothingQueued(s, u, status);
      NothingQueued(t, u, status);
    }
  }

  lemma NothingQueued(s: HcdState, u: UrbId, status: int)
    ensures !Waiting(s, u) ==> QueueGiveback(s, u, status) == s
  {
  }

  lemma QueuedAs(s: HcdState, u: UrbId, status: int)
    requires Waiting(s, u)
    ensures var c := s.contexts[u];
            var p := InsertPosition(s.completedUrbs, s.contexts, c.readyTime);
            var queued := s.(contexts := s.contexts[u := c.(status := status, phase := PendingGiveback,
                                                            arrival := s.arrivals, queuedTimed := c.readyTime > 0)],
                             pendingHidIn := Without(s.pendingHidIn, u),
                             pendingFeatureGet := Without(s.pendingFeatureGet, u),
                             completedUrbs := InsertAt(s.completedUrbs, p, u),
                             arrivals := s.arrivals + 1);
            QueueGiveback(s, u, status) == queued
  {
    hide Without, InsertPosition, InsertAt;
  }

  /** A cancellation does not look at the flag. */
  lemma CancelWhileStopping(s: HcdState, stopping: bool, status: int)
    ensures CancelPending(s.(stopping := stopping), status) == CancelPending(s, status).(stopping := stopping)
  {
    QueueWhileStopping(s, s.pendingHidIn, stopping, status);
    var m := QueueAll(s, s.pendingHidIn, status);
    QueueWhileStopping(m, m.pendingFeatureGet, stopping, status);
  }

  lemma PickKeepsInv(s: HcdState, now: nat)
    requires Inv(s)
    ensures Inv(Pick(s, now))
  {
    hide Inv, Placed, Ordered, AllTruthful, Rest, Staged, Due;
    if s.giving.None? && s.asleepUntil.None? && s.completedUrbs != [] && s.completedUrbs[0] in s.contexts {
      var u := s.completedUrbs[0];
      if Due(s.contexts[u], now) {
        TakeKeepsInv(s, u);
      } else {
        AsideKeepsInv(s, Pick(s, now));
      }
    }
  }

  lemma TakeKeepsInv(s: HcdState, u: UrbId)
    requires Inv(s) && s.giving.None? && s.asleepUntil.None? && s.completedUrbs != [] && u == s.completedUrbs[0]
    requires u in s.contexts
    ensures Inv(Picked(s, u))
  {
    assert u in s.completedUrbs;
    assert s.contexts[u].phase == PendingGiveback;
    hide Placed, Ordered, AllTruthful, Rest, Staged;
    PickPlaced(s, u);
    PickOrdered(s, u);
    PickTruthful(s, u);
    PickRest(s, u);
  }

  /** The URB in giveback. */
  function Picked(s: HcdState, u: UrbId): HcdState
    requires u in s.contexts && s.completedUrbs != []
  {
    s.(contexts := s.contexts[u := s.contexts[u].(phase := GivingBack)],
       completedUrbs := s.completedUrbs[1..], giving := Some(u))
  }

  lemma PickRest(s: HcdState, u: UrbId)
    requires Rest(s) && Staged(s) && u in s.contexts && s.completedUrbs != []
    ensures Rest(Picked(s, u)) && Staged(Picked(s, u))
  {
    hide FeatureServed, PacedStreams, Accounted, Staged, HidFresh;
    var m := s.(contexts := s.contexts[u := s.contexts[u].(phase := GivingBack)]);
    var t := Picked(s, u);
    AmendRest(s, u, m.contexts[u]);
    ServedAside(m, t);
    PacedAside(m, t);
    FreshAside(m, t);
    RestFrame(m, t);
  }

  lemma PickTruthful(s: HcdState, u: UrbId)
    requires AllTruthful(s) && u in s.contexts && s.contexts[u].phase == PendingGiveback && s.completedUrbs != []
    ensures AllTruthful(Picked(s, u))
  {
    var t := Picked(s, u);
    forall x | x in t.contexts && Outcome(t, x) == Some(0) ensures Truthful(t.written, t.contexts[x]) {
      assert Outcome(s, x) == Some(0);
    }
  }

  lemma PickPlaced(s: HcdState, u: UrbId)
    requires Placed(s) && s.giving.None? && s.completedUrbs != [] && u == s.completedUrbs[0] && u in s.contexts
    ensures Placed(Picked(s, u))
  {
    assert forall x :: x in s.completedUrbs <==> x == u || x in s.completedUrbs[1..];
  }

  lemma PickOrdered(s: HcdState, u: UrbId)
    requires Placed(s) && Ordered(s) && s.completedUrbs != [] && u == s.completedUrbs[0] && u in s.contexts
    ensures Ordered(Picked(s, u))
  {
    var t := Picked(s, u);
    forall i, j | 0 <= i < j < |t.completedUrbs|
      ensures MayPrecede(t.contexts[t.completedUrbs[i]], t.contexts[t.completedUrbs[j]])
    {
      assert MayPrecede(s.contexts[s.completedUrbs[i + 1]], s.contexts[s.completedUrbs[j + 1]]);
    }
  }

  lemma ReturnListed(s: HcdState, u: UrbId)
    requires Listed(s) && s.giving == Some(u)
    ensures Listed(Giveback(s))
  {
    assert u in s.contexts && s.contexts[u].phase == GivingBack;
    assert u !in s.completedUrbs;
    var t := Giveback(s);
    assert Placed(t);
    GivebackRemoveOrdered(s, u);
    forall x | x in t.contexts && Outcome(t, x) == Some(0) ensures Truthful(t.written, t.contexts[x]) {
      assert Outcome(s, x) == Some(0);
    }
  }

  lemma ReturnServed(s: HcdState, u: UrbId)
    requires FeatureServed(s) && s.giving == Some(u) && u !in s.pendingFeatureGet
    ensures FeatureServed(Giveback(s))
  {
    var t := Giveback(s);
    forall x | x in t.pendingFeatureGet ensures StillWaits(t, x) {
      assert StillWaits(s, x);
      WaitsAside(s, t, x);
    }
    forall x | At(t, x, Missed) ensures MissedLookUp(t, x) {
      assert At(s, x, Missed);
      WaitsAside(s, t, x);
    }
  }

  lemma ReturnAccounted(s: HcdState, u: UrbId)
    requires Accounted(s) && s.giving == Some(u) && u in s.contexts
    ensures Accounted(Giveback(s))
  {
  }

  lemma ReturnRest(s: HcdState, u: UrbId)
    requires Rest(s) && s.giving == Some(u) && u in s.contexts
    requires u !in s.pendingHidIn && u !in s.pendingFeatureGet
    ensures Rest(Giveback(s))
  {
    ReturnAccounted(s, u);
    ReturnServed(s, u);
    hide Accounted, FeatureServed;
  }

  lemma GivebackKeepsInv(s: HcdState)
    requires Inv(s)
    ensures Inv(Giveback(s))
  {
    if s.giving.Some? {
      var u := s.giving.value;
      assert u in s.contexts && s.contexts[u].phase == GivingBack;
      ReturnListed(s, u);
      ReturnRest(s, u);
      assert Staged(Giveback(s));
    }
  }

  lemma GivebackRemoveOrdered(s: HcdState, u: UrbId)
    requires Ordered(s) && u !in s.completedUrbs
    ensures Ordered(s.(contexts := s.contexts - {u}))
  {
    forall i | 0 <= i < |s.completedUrbs| ensures s.completedUrbs[i] != u {
      assert s.completedUrbs[i] in s.completedUrbs;
    }
  }

  lemma NextKeepsInv(s: HcdState, step: Step)
    requires Inv(s) && ValidStep(step)
    ensures Inv(Next(s, step))
  {
    hide Inv, Link, ScheduleUrb, PopInput, LookUp, Defer, Ask, Settle, Dequeue, WriteInput, CacheReply, CompleteReply,
         Disconnect, ResetUsb, SetProfile, Pick, Wake, StopThread, Giveback, Stop;
    match step
    case DoLink(urb) => LinkKeepsInv(s, urb);
    case DoSchedule(u, now) => ScheduleUrbKeepsInv(s, u, now);
    case DoPopInput(u, now) => PopInputKeepsInv(s, u, now);
    case DoLookUp(u) => LookUpKeepsInv(s, u);
    case DoDefer(u) => DeferKeepsInv(s, u);
    case DoAsk(u, status) => AskKeepsInv(s, u, status);
    case DoSettle(u) => SettleKeepsInv(s, u);
    case DoDequeue(u, status) => DequeueKeepsInv(s, u, status);
    case DoWriteInput(report, now) => WriteInputKeepsInv(s, report, now);
    case DoCacheReply(report) => CacheReplyKeepsInv(s, report);
    case DoCompleteReply(report) => CompleteReplyKeepsInv(s, report);
    case DoConnect => ConnectKeepsInv(s);
    case DoDisconnect => DisconnectKeepsInv(s);
    case DoResetUsb => ResetUsbKeepsInv(s);
    case DoSetProfile(hidInIntervalUs) => SetProfileKeepsInv(s, hidInIntervalUs);
    case DoPick(now) => PickKeepsInv(s, now);
    case DoWake(now) => WakeKeepsInv(s, now);
    case DoStopThread => StopThreadKeepsInv(s);
    case DoGiveback => GivebackKeepsInv(s);
    case DoStop => StopKeepsInv(s);
  }

  lemma ConnectKeepsInv(s: HcdState)
    requires Inv(s)
    ensures Inv(Connect(s))
  {
    InvListed(s);
    hide Inv;
    AsideKeepsInv(s, Connect(s));
  }

  lemma WakeKeepsInv(s: HcdState, now: nat)
    requires Inv(s)
    ensures Inv(Wake(s, now))
  {
    InvListed(s);
    hide Inv;
    AsideKeepsInv(s, Wake(s, now));
  }

  lemma StopThreadKeepsInv(s: HcdState)
    requires Inv(s)
    ensures Inv(StopThread(s))
  {
    hide Inv;
    AsideKeepsInv(s, StopThread(s));
  }

  lemma ResetUsbKeepsInv(s: HcdState)
    requires Inv(s)
    ensures Inv(ResetUsb(s))
  {
    ClearCacheKeepsInv(s, ResetUsb(s));
  }

  lemma SetProfileKeepsInv(s: HcdState, hidInIntervalUs: nat)
    requires Inv(s)
    ensures Inv(SetProfile(s, hidInIntervalUs))
  {
    if !s.connected {
      ClearCacheKeepsInv(s, SetProfile(s, hidInIntervalUs));
    }
  }

  lemma {:induction false} RunKeepsInv(s: HcdState, steps: seq<Step>)
    requires Inv(s) && ValidRun(steps)
    ensures Inv(Run(s, steps))
  {
    if steps != [] {
      var before := steps[..|steps| - 1];
      assert forall i :: 0 <= i < |before| ==> before[i] == steps[i];
      RunKeepsInv(s, before);
      NextKeepsInv(Run(s, before), steps[|steps| - 1]);
    }
  }
}
