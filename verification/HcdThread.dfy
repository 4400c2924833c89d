/** The giveback thread of the host controller: what its rounds return, and what its sleep does to
    completions that are queued meanwhile. */
module HcdThread {
  import opened VdsTypes
  import opened HcdPacing
  import opened HcdUrbs
  import opened HcdInvariants

  /** `count` rounds of the thread. */
  function Drain(s: HcdState, now: nat, count: nat): HcdState
    decreases count
  {
    if count == 0 then s else Drain(Giveback(Pick(s, now)), now, count - 1)
  }

  /** The first `count` completions are due. */
  ghost predicate DueFirst(s: HcdState, now: nat, count: nat) {
    && count <= |s.completedUrbs|
    && forall i :: 0 <= i < count ==> s.completedUrbs[i] in s.contexts && Due(s.contexts[s.completedUrbs[i]], now)
  }

  ghost predicate NoneActive(s: HcdState) {
    forall u :: u in s.contexts ==> s.contexts[u].phase != Active
  }

  /** Between rounds, with the thread awake. */
  ghost predicate Ready(s: HcdState) {
    s.giving.None? && s.asleepUntil.None?
  }

  /** Each round takes the head of the list, so the thread returns due completions in their order. */
  lemma {:induction false} DrainReturns(s: HcdState, now: nat, count: nat)
    requires Inv(s) && Ready(s) && DueFirst(s, now, count)
    ensures var t := Drain(s, now, count);
            && Inv(t) && Ready(t)
            && t.returned == s.returned + s.completedUrbs[..count] && t.completedUrbs == s.completedUrbs[count..]
            && t.nextId == s.nextId && t.pendingHidIn == s.pendingHidIn && t.pendingFeatureGet == s.pendingFeatureGet
            && (NoneActive(s) ==> NoneActive(t))
    decreases count
  {
    hide Inv, DueFirst, NoneActive, Giveback, Pick;
    if count > 0 {
      var next := Giveback(Pick(s, now));
      DrainOne(s, now, count);
      DrainReturns(next, now, count - 1);
      var q := s.completedUrbs;
      assert q[..count] == [q[0]] + q[1..][..count - 1] && q[count..] == q[1..][count - 1..];
    } else {
      assert s.completedUrbs[..0] == [] && s.completedUrbs[0..] == s.completedUrbs;
    }
  }

  lemma DrainOne(s: HcdState, now: nat, count: nat)
    requires Inv(s) && Ready(s) && DueFirst(s, now, count) && count > 0
    ensures var next := Giveback(Pick(s, now));
            && |s.completedUrbs| >= count
            && Inv(next) && Ready(next) && DueFirst(next, now, count - 1) && (NoneActive(s) ==> NoneActive(next))
            && next == s.(contexts := next.contexts, completedUrbs := s.completedUrbs[1..],
                          returned := s.returned + [s.completedUrbs[0]])
  {
    CompletedOnce(s);
    hide Inv;
    DrainOneEffect(s, now, count);
    PickKeepsInv(s, now);
    GivebackKeepsInv(Pick(s, now));
  }

  lemma CompletedOnce(s: HcdState)
    requires Inv(s)
    ensures Distinct(s.completedUrbs)
    ensures forall u :: u in s.completedUrbs ==> u in s.contexts && s.contexts[u].phase == PendingGiveback
  {
  }

  lemma DrainOneEffect(s: HcdState, now: nat, count: nat)
    requires Ready(s) && Distinct(s.completedUrbs) && DueFirst(s, now, count) && count > 0
    ensures var next := Giveback(Pick(s, now));
            && DueFirst(next, now, count - 1) && (NoneActive(s) ==> NoneActive(next))
            && next == s.(contexts := s.contexts - {s.completedUrbs[0]}, completedUrbs := s.completedUrbs[1..],
                          returned := s.returned + [s.completedUrbs[0]])
  {
    hide Due;
    var u := s.completedUrbs[0];
    assert Giveback(Pick(s, now)).contexts == s.contexts - {u};
    forall i | 0 <= i < count - 1 ensures s.completedUrbs[1..][i] == s.completedUrbs[i + 1] && s.completedUrbs[i + 1] != u {
    }
  }

  // ---------------------------------------------------------------------------------------------
  // Sleeping
  // ---------------------------------------------------------------------------------------------

  /** The thread sleeps and its timer does not expire by `now`. */
  predicate AsleepPast(s: HcdState, now: nat) {
    s.asleepUntil.Some? && now < s.asleepUntil.value
  }

  lemma WakeIs(s: HcdState, now: nat)
    ensures Wake(s, now) == if AsleepPast(s, now) then s else s.(asleepUntil := None)
  {
  }

  /** While it sleeps the thread returns nothing, however often it is woken by what is queued. */
  lemma {:induction false} DrainAsleep(s: HcdState, now: nat, count: nat)
    requires s.giving.None? && s.asleepUntil.Some?
    ensures Drain(s, now, count) == s
    decreases count
  {
    if count > 0 {
      assert Giveback(Pick(s, now)) == s;
      DrainAsleep(s, now, count - 1);
    }
  }

  /** In every reachable state between rounds: the first completions, if they are due, are returned at
      `now` exactly when the thread does not sleep past `now`. */
  lemma DueIsReturnedExactly(hidInIntervalUs: nat, steps: seq<Step>, now: nat, count: nat)
    requires ValidRun(steps) && count > 0
    requires var s := Run(Init(hidInIntervalUs), steps); s.giving.None? && DueFirst(s, now, count)
    ensures var s := Run(Init(hidInIntervalUs), steps);
            var t := Drain(Wake(s, now), now, count);
            if AsleepPast(s, now) then t == s else t.returned == s.returned + s.completedUrbs[..count]
  {
    hide Run, Init, Inv, Drain, DueFirst, Wake;
    var s := Run(Init(hidInIntervalUs), steps);
    RunFromInit(hidInIntervalUs, steps);
    WakeIs(s, now);
    if AsleepPast(s, now) {
      DrainAsleep(s, now, count);
    } else {
      WakeKeepsInv(s, now);
      DueAside(s, Wake(s, now), now, count);
      DrainReturns(Wake(s, now), now, count);
    }
  }

  lemma RunFromInit(hidInIntervalUs: nat, steps: seq<Step>)
    requires ValidRun(steps)
    ensures Inv(Run(Init(hidInIntervalUs), steps))
  {
    RunKeepsInv(Init(hidInIntervalUs), steps);
  }

  lemma DueAside(s: HcdState, t: HcdState, now: nat, count: nat)
    requires DueFirst(s, now, count) && t.contexts == s.contexts && t.completedUrbs == s.completedUrbs
    ensures DueFirst(t, now, count)
  {
  }

  /** What was queued untimed, a control transfer say, has nothing ahead of it that is not due at once. So
      it is returned at `now` exactly when the thread does not sleep past `now`. */
  lemma UntimedIsReturnedExactly(hidInIntervalUs: nat, steps: seq<Step>, now: nat, j: nat)
    requires ValidRun(steps)
    requires var s := Run(Init(hidInIntervalUs), steps);
             && s.giving.None? && j < |s.completedUrbs| && s.completedUrbs[j] in s.contexts
             && !s.contexts[s.completedUrbs[j]].queuedTimed
    ensures var s := Run(Init(hidInIntervalUs), steps);
            var t := Drain(Wake(s, now), now, j + 1);
            && (s.completedUrbs[j] in t.returned <==> !AsleepPast(s, now))
            && (!AsleepPast(s, now) ==> t.returned == s.returned + s.completedUrbs[..j + 1])
  {
    hide Run, Inv, Drain, DueFirst;
    var s := Run(Init(hidInIntervalUs), steps);
    RunFromInit(hidInIntervalUs, steps);
    UntimedAhead(s, j, now);
    DueIsReturnedExactly(hidInIntervalUs, steps, now, j + 1);
    NotReturnedYet(s, j);
    assert s.completedUrbs[j] == s.completedUrbs[..j + 1][j];
  }

  lemma NotReturnedYet(s: HcdState, j: nat)
    requires Inv(s) && j < |s.completedUrbs|
    ensures s.completedUrbs[j] !in s.returned
  {
    CompletedOnce(s);
    assert s.completedUrbs[j] in s.completedUrbs;
  }

  lemma UntimedAhead(s: HcdState, j: nat, now: nat)
    requires Inv(s) && j < |s.completedUrbs| && s.completedUrbs[j] in s.contexts
    requires !s.contexts[s.completedUrbs[j]].queuedTimed
    ensures DueFirst(s, now, j + 1)
  {
    hide Rest, Staged, Placed, AllTruthful, Sleeps;
    assert s.completedUrbs[j] in s.completedUrbs;
    forall i | 0 <= i <= j
      ensures s.completedUrbs[i] in s.contexts && s.contexts[s.completedUrbs[i]].readyTime == 0
    {
      assert s.completedUrbs[i] in s.completedUrbs;
      assert i < j ==> MayPrecede(s.contexts[s.completedUrbs[i]], s.contexts[s.completedUrbs[j]]);
    }
  }

  /** The bound: the sleep ends at the time the entry was due for which the thread went to sleep, and by
      then the head is due, whatever was queued, zeroed or cancelled meanwhile. */
  lemma SleepIsBounded(hidInIntervalUs: nat, steps: seq<Step>, now: nat)
    requires ValidRun(steps)
    requires var s := Run(Init(hidInIntervalUs), steps); s.asleepUntil.Some? && now >= s.asleepUntil.value
    ensures var s := Run(Init(hidInIntervalUs), steps);
            && s.completedUrbs != [] && s.giving.None?
            && Pick(Wake(s, now), now).giving == Some(s.completedUrbs[0])
  {
    hide Run, Init, Inv, Pick, Wake;
    RunFromInit(hidInIntervalUs, steps);
    var s := Run(Init(hidInIntervalUs), steps);
    CompletedOnce(s);
    InvSleeps(s);
    assert s.completedUrbs[0] in s.completedUrbs;
    WakeIs(s, now);
    TakesDueHead(Wake(s, now), now);
  }

  lemma TakesDueHead(s: HcdState, now: nat)
    requires Ready(s) && s.completedUrbs != [] && s.completedUrbs[0] in s.contexts && Due(s.contexts[s.completedUrbs[0]], now)
    ensures Pick(s, now).giving == Some(s.completedUrbs[0])
  {
    hide Due;
  }

  /** The thread goes to sleep exactly when it finds the head not due, until that is due. */
  lemma SleepsForHead(s: HcdState, now: nat)
    requires Ready(s) && !s.threadStopped && s.completedUrbs != [] && s.completedUrbs[0] in s.contexts
    ensures Pick(s, now).asleepUntil
         == if Due(s.contexts[s.completedUrbs[0]], now) then None else Some(s.contexts[s.completedUrbs[0]].readyTime)
  {
  }

  // ---------------------------------------------------------------------------------------------
  // A control transfer that waits for audio
  // ---------------------------------------------------------------------------------------------

  /** A millisecond of audio, for which the thread goes to sleep. */
  const AUDIO := [DoLink(Submission(Iso(false, [384]), true, 384)), DoSchedule(0, 1), DoSettle(0), DoPick(1)]
  /** Then a control transfer that is answered at once. */
  const CONTROL := AUDIO + [DoLink(Submission(Immediate(0), true, 8)), DoSettle(1)]

  lemma RunAppend(s: HcdState, steps: seq<Step>, step: Step)
    ensures Run(s, steps + [step]) == Next(Run(s, steps), step)
  {
    assert (steps + [step])[..|steps|] == steps;
  }

  lemma OneMillisecond()
    ensures DurationUs([384], false) == 1000
  {
    assert [384][..0] == [];
    assert PcmBytes([], false) == 0;
    assert PcmBytes([384], false) == 384;
  }

  lemma AudioScheduled()
    ensures var t := ScheduleUrb(Link(Init(4000), Submission(Iso(false, [384]), true, 384)), 0, 1);
            && At(t, 0, Decided(0)) && t.contexts[0].readyTime == 1000001 && t.completedUrbs == [] && t.nextId == 1
            && !t.stopping && !t.threadStopped && Ready(t) && t.contexts.Keys == {0}
  {
    OneMillisecond();
    hide DurationUs, PcmBytes;
  }

  lemma AudioPutsToSleep(s: HcdState)
    requires At(s, 0, Decided(0)) && s.contexts[0].readyTime == 1000001 && s.completedUrbs == [] && s.nextId == 1
    requires !s.stopping && !s.threadStopped && Ready(s) && s.contexts.Keys == {0}
    ensures var t := Pick(Settle(s, 0), 1);
            && t.asleepUntil == Some(1000001) && t.giving.None? && t.completedUrbs == [0] && t.nextId == 1 && !t.stopping
            && t.contexts.Keys == {0} && t.contexts[0].readyTime == 1000001
  {
    hide Without;
    var q := Settle(s, 0);
    assert q.completedUrbs == [0] && q.contexts.Keys == {0} && q.contexts[0].readyTime == 1000001;
    hide Settle;
  }

  lemma ControlGoesFirst(s: HcdState)
    requires s.asleepUntil == Some(1000001) && s.giving.None? && s.completedUrbs == [0] && s.nextId == 1 && !s.stopping
    requires s.contexts.Keys == {0} && s.contexts[0].readyTime == 1000001
    ensures var t := Settle(Link(s, Submission(Immediate(0), true, 8)), 1);
            && t.completedUrbs == [1, 0] && t.giving.None? && t.asleepUntil == Some(1000001)
            && 1 in t.contexts && t.contexts[1].readyTime == 0 && !t.contexts[1].queuedTimed
  {
    hide Without;
    var l := Link(s, Submission(Immediate(0), true, 8));
    assert l.contexts.Keys == {0, 1} && l.contexts[0] == s.contexts[0] && l.completedUrbs == [0];
    assert At(l, 1, Decided(0));
    hide Link;
    assert InsertPosition([0], l.contexts, 0) == 0;
    assert InsertAt([0], 0, 1) == [1, 0];
    hide InsertPosition, InsertAt;
  }

  /** The control transfer is first and due at once; yet at any time before the audio is due the thread
      returns nothing. */
  lemma UntimedWaitsForAudio(now: nat, count: nat)
    requires now < 1000001
    ensures var s := Run(Init(4000), CONTROL);
            && s.completedUrbs == [1, 0] && 1 in s.contexts && s.contexts[1].readyTime == 0 && !s.contexts[1].queuedTimed
            && Drain(Wake(s, now), now, count) == s
  {
    hide Run, Drain, Init, Wake;
    AudioRun();
    ControlRun();
    var s := Run(Init(4000), CONTROL);
    WakeIs(s, now);
    DrainAsleep(s, now, count);
  }

  lemma AudioRun()
    ensures var t := Run(Init(4000), AUDIO);
            && t.asleepUntil == Some(1000001) && t.giving.None? && t.completedUrbs == [0] && t.nextId == 1 && !t.stopping
            && t.contexts.Keys == {0} && t.contexts[0].readyTime == 1000001
  {
    hide Run, Link, ScheduleUrb, Settle, Pick, Init;
    var link := DoLink(Submission(Iso(false, [384]), true, 384));
    var a := [link];
    var b := a + [DoSchedule(0, 1)];
    var c := b + [DoSettle(0)];
    RunAppend(Init(4000), [], link);
    NoSteps(Init(4000));
    assert [] + [link] == a;
    RunAppend(Init(4000), a, DoSchedule(0, 1));
    RunAppend(Init(4000), b, DoSettle(0));
    RunAppend(Init(4000), c, DoPick(1));
    assert c + [DoPick(1)] == AUDIO;
    AudioScheduled();
    AudioPutsToSleep(Run(Init(4000), b));
  }

  lemma ControlRun()
    ensures var t := Run(Init(4000), CONTROL);
            && t.completedUrbs == [1, 0] && t.giving.None? && t.asleepUntil == Some(1000001)
            && 1 in t.contexts && t.contexts[1].readyTime == 0 && !t.contexts[1].queuedTimed
  {
    hide Run, Link, Settle, Init;
    AudioRun();
    var control := DoLink(Submission(Immediate(0), true, 8));
    RunAppend(Init(4000), AUDIO, control);
    RunAppend(Init(4000), AUDIO + [control], DoSettle(1));
    assert AUDIO + [control] + [DoSettle(1)] == CONTROL;
    ControlGoesFirst(Run(Init(4000), AUDIO));
  }

  lemma NoSteps(s: HcdState)
    ensures Run(s, []) == s
  {
  }
}
