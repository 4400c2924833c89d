/** Real-time pacing of audio replies by the USB/IP server (src/platform/win32/vds_usbip.cc). Times are
    microseconds of the monotonic clock; 0 is the unset anchor. */
module UsbipPacer {
  import opened VdsTypes

  const US_PER_PACKET: nat := 1000
  const RESTART_US: nat := 250000

  /** A reply to submission number `id` of the session, in one direction. */
  datatype Reply = Reply(id: nat, input: bool, due: nat, packets: nat)

  datatype Sent = Sent(reply: Reply, at: nat)

  /** `queue` is the multimap of replies in its order; the rest of the session is history. */
  datatype PacerState = PacerState(
    outNextDue: nat,
    inNextDue: nat,
    queue: seq<Reply>,
    submitted: seq<Reply>,
    sent: seq<Sent>)

  const START := PacerState(0, 0, [], [], [])

  function Anchor(s: PacerState, input: bool): nat {
    if input then s.inNextDue else s.outNextDue
  }

  function DueFor(s: PacerState, input: bool, now: nat): nat {
    var anchor := Anchor(s, input);
    if anchor == 0 || anchor + RESTART_US < now then now else anchor
  }

  /** A multimap puts a new entry after all that are due no later. */
  function InsertPosition(queue: seq<Reply>, due: nat): (p: nat)
    ensures p <= |queue|
    ensures p > 0 ==> queue[p - 1].due <= due
    ensures forall i :: p <= i < |queue| ==> queue[i].due > due
  {
    if queue == [] || queue[|queue| - 1].due <= due then |queue| else InsertPosition(queue[..|queue| - 1], due)
  }

  function Inserted(queue: seq<Reply>, r: Reply): seq<Reply> {
    var p := InsertPosition(queue, r.due);
    queue[..p] + [r] + queue[p..]
  }

  /** An audio submission of `packets` packets, served at `now`. */
  function Submit(s: PacerState, input: bool, packets: nat, now: nat): PacerState {
    var due := DueFor(s, input, now);
    var reply := Reply(|s.submitted|, input, due, packets);
    var next := due + packets * US_PER_PACKET;
    PacerState(if input then s.outNextDue else next, if input then next else s.inNextDue,
               Inserted(s.queue, reply), s.submitted + [reply], s.sent)
  }

  /** The pacer thread wakes: the earliest reply goes out if it is due. */
  function Send(s: PacerState, now: nat): PacerState {
    if s.queue == [] || now < s.queue[0].due then s
    else s.(queue := s.queue[1..], sent := s.sent + [Sent(s.queue[0], now)])
  }

  datatype Step = DoSubmit(input: bool, packets: nat, now: nat) | DoSend(now: nat) | DoEnd

  /** The clock is past its origin, and a paced submission has packets. */
  predicate ValidStep(step: Step) {
    step.DoSubmit? ==> step.now > 0 && step.packets > 0
  }

  function Next(s: PacerState, step: Step): PacerState {
    match step
    case DoSubmit(input, packets, now) => Submit(s, input, packets, now)
    case DoSend(now) => Send(s, now)
    case DoEnd => START
  }

  function Run(steps: seq<Step>): PacerState {
    if steps == [] then START else Next(Run(steps[..|steps| - 1]), steps[|steps| - 1])
  }

  // ---------------------------------------------------------------------------------------------
  // Invariants of a session
  // ---------------------------------------------------------------------------------------------

  /** Submissions are numbered, and within a direction a later one is due after the PCM of an earlier one. */
  ghost predicate Advancing(submitted: seq<Reply>) {
    && (forall i :: 0 <= i < |submitted| ==> submitted[i].id == i && submitted[i].packets > 0 && submitted[i].due > 0)
    && (forall i, j :: 0 <= i < j < |submitted| && submitted[i].input == submitted[j].input ==>
          submitted[i].due + submitted[i].packets * US_PER_PACKET <= submitted[j].due)
  }

  /** Each direction's anchor is past everything submitted in it. */
  ghost predicate Anchored(s: PacerState) {
    forall i :: 0 <= i < |s.submitted| ==>
                  s.submitted[i].due + s.submitted[i].packets * US_PER_PACKET <= Anchor(s, s.submitted[i].input)
  }

  ghost predicate Sorted(queue: seq<Reply>) {
    forall i, j :: 0 <= i < j < |queue| ==> queue[i].due <= queue[j].due
  }

  function Replies(sent: seq<Sent>): seq<Reply> {
    seq(|sent|, i requires 0 <= i < |sent| => sent[i].reply)
  }

  /** Every submission is waiting or sent, once. */
  ghost predicate Accounted(s: PacerState) {
    multiset(s.submitted) == multiset(s.queue) + multiset(Replies(s.sent))
  }

  /** In each direction what was sent was submitted before all that waits, and was sent in that order. */
  ghost predicate InOrder(s: PacerState) {
    && (forall i, j :: 0 <= i < |s.sent| && 0 <= j < |s.queue| && s.sent[i].reply.input == s.queue[j].input ==>
          s.sent[i].reply.id < s.queue[j].id)
    && (forall i, j :: 0 <= i < j < |s.sent| && s.sent[i].reply.input == s.sent[j].reply.input ==>
          s.sent[i].reply.id < s.sent[j].reply.id)
  }

  ghost predicate NeverEarly(s: PacerState) {
    forall i :: 0 <= i < |s.sent| ==> s.sent[i].at >= s.sent[i].reply.due
  }

  ghost predicate Inv(s: PacerState) {
    Advancing(s.submitted) && Anchored(s) && Sorted(s.queue) && Accounted(s) && InOrder(s) && NeverEarly(s)
  }

  lemma DueAdvances(s: PacerState, input: bool, now: nat)
    requires Advancing(s.submitted) && Anchored(s) && now > 0
    ensures DueFor(s, input, now) > 0
    ensures forall i :: 0 <= i < |s.submitted| && s.submitted[i].input == input ==>
                          s.submitted[i].due + s.submitted[i].packets * US_PER_PACKET <= DueFor(s, input, now)
  {
  }

  lemma SubmitAdvances(s: PacerState, input: bool, packets: nat, now: nat)
    requires Advancing(s.submitted) && Anchored(s) && now > 0 && packets > 0
    ensures var t := Submit(s, input, packets, now); Advancing(t.submitted) && Anchored(t)
  {
    DueAdvances(s, input, now);
    hide DueFor, InsertPosition;
  }

  lemma InsertSorted(queue: seq<Reply>, r: Reply)
    requires Sorted(queue)
    ensures Sorted(Inserted(queue, r))
  {
    hide InsertPosition;
    var p := InsertPosition(queue, r.due);
    forall i | 0 <= i <= |queue|
      ensures Inserted(queue, r)[i] == if i < p then queue[i] else if i == p then r else queue[i - 1]
    {
    }
  }

  lemma InsertAdds(queue: seq<Reply>, r: Reply)
    ensures multiset(Inserted(queue, r)) == multiset(queue) + multiset{r}
  {
    hide InsertPosition;
    var p := InsertPosition(queue, r.due);
    assert queue == queue[..p] + queue[p..];
    assert multiset(queue[..p] + queue[p..]) == multiset(queue[..p]) + multiset(queue[p..]);
    assert multiset(queue[..p] + [r] + queue[p..]) == multiset(queue[..p]) + multiset([r]) + multiset(queue[p..]);
  }

  lemma Members(s: PacerState)
    requires Accounted(s)
    ensures forall i :: 0 <= i < |s.queue| ==> s.queue[i] in s.submitted
    ensures forall i :: 0 <= i < |s.sent| ==> s.sent[i].reply in s.submitted
  {
    forall i | 0 <= i < |s.queue| ensures s.queue[i] in s.submitted {
      assert s.queue[i] in multiset(s.queue);
      assert s.queue[i] in multiset(s.submitted);
    }
    forall i | 0 <= i < |s.sent| ensures s.sent[i].reply in s.submitted {
      assert Replies(s.sent)[i] in multiset(Replies(s.sent));
      assert s.sent[i].reply in multiset(s.submitted);
    }
  }

  lemma SubmitInOrder(s: PacerState, reply: Reply, queue: seq<Reply>)
    requires Advancing(s.submitted) && Accounted(s) && InOrder(s) && reply.id == |s.submitted|
    requires multiset(queue) == multiset(s.queue) + multiset{reply}
    ensures InOrder(s.(queue := queue))
  {
    Members(s);
    forall i, j | 0 <= i < |s.sent| && 0 <= j < |queue| && s.sent[i].reply.input == queue[j].input
      ensures s.sent[i].reply.id < queue[j].id
    {
      assert queue[j] in multiset(queue);
      assert queue[j] == reply || queue[j] in multiset(s.queue);
    }
  }

  lemma SubmitKeepsInv(s: PacerState, input: bool, packets: nat, now: nat)
    requires Inv(s) && now > 0 && packets > 0
    ensures Inv(Submit(s, input, packets, now))
  {
    var t := Submit(s, input, packets, now);
    var reply := Reply(|s.submitted|, input, DueFor(s, input, now), packets);
    hide DueFor, Inserted, Sorted, InOrder, Anchored, Advancing;
    SubmitAdvances(s, input, packets, now);
    InsertSorted(s.queue, reply);
    InsertAdds(s.queue, reply);
    SubmitInOrder(s, reply, t.queue);
    assert multiset(s.submitted + [reply]) == multiset(s.submitted) + multiset{reply};
    SameOrder(s.(queue := t.queue), t);
  }

  lemma SameOrder(s: PacerState, t: PacerState)
    requires InOrder(s) && t.queue == s.queue && t.sent == s.sent
    ensures InOrder(t)
  {
  }

  /** Of the replies of one direction the head of the queue is the first submitted. */
  lemma HeadIsFirst(s: PacerState, j: nat)
    requires Inv(s) && 0 < j < |s.queue| && s.queue[j].input == s.queue[0].input && s.queue[j] != s.queue[0]
    ensures s.queue[0].id < s.queue[j].id
  {
    Members(s);
    var a, b := s.queue[0], s.queue[j];
    var k :| 0 <= k < |s.submitted| && s.submitted[k] == a;
    var l :| 0 <= l < |s.submitted| && s.submitted[l] == b;
    assert k < l;
  }

  lemma TwiceIn(queue: seq<Reply>, j: nat)
    requires 0 < j < |queue|
    ensures queue[j] == queue[0] ==> multiset(queue)[queue[0]] >= 2
  {
    assert queue == [queue[0]] + queue[1..];
    assert queue[1..][j - 1] == queue[j];
    assert queue[j] in multiset(queue[1..]);
  }

  lemma QueuedOnce(s: PacerState, j: nat)
    requires Inv(s) && 0 < j < |s.queue|
    ensures s.queue[j] != s.queue[0]
  {
    SubmittedOnce(s.submitted, s.queue[0]);
    TwiceIn(s.queue, j);
    assert multiset(s.submitted)[s.queue[0]] >= multiset(s.queue)[s.queue[0]];
  }

  lemma {:induction false} SubmittedOnce(submitted: seq<Reply>, r: Reply)
    requires forall i :: 0 <= i < |submitted| ==> submitted[i].id == i
    ensures multiset(submitted)[r] <= 1
  {
    if submitted != [] {
      var before, last := submitted[..|submitted| - 1], submitted[|submitted| - 1];
      SubmittedOnce(before, r);
      assert submitted == before + [last];
      if r == last {
        assert r !in before;
      }
    }
  }

  lemma SendInOrder(s: PacerState, now: nat)
    requires Inv(s) && s.queue != []
    ensures InOrder(s.(queue := s.queue[1..], sent := s.sent + [Sent(s.queue[0], now)]))
  {
    forall j | 0 < j < |s.queue| && s.queue[j].input == s.queue[0].input
      ensures s.queue[0].id < s.queue[j].id
    {
      QueuedOnce(s, j);
      HeadIsFirst(s, j);
    }
  }

  lemma SendKeepsInv(s: PacerState, now: nat)
    requires Inv(s)
    ensures Inv(Send(s, now))
  {
    if s.queue != [] && now >= s.queue[0].due {
      var t := Send(s, now);
      SendInOrder(s, now);
      assert s.queue == [s.queue[0]] + t.queue;
      assert Replies(t.sent) == Replies(s.sent) + [s.queue[0]];
      hide Anchored, Advancing, InOrder;
    }
  }

  lemma {:induction false} RunKeepsInv(steps: seq<Step>)
    requires forall i :: 0 <= i < |steps| ==> ValidStep(steps[i])
    ensures Inv(Run(steps))
  {
    if steps != [] {
      var s, step := Run(steps[..|steps| - 1]), steps[|steps| - 1];
      RunKeepsInv(steps[..|steps| - 1]);
      assert ValidStep(step);
      match step
      case DoSubmit(input, packets, now) => hide Inv, Submit; SubmitKeepsInv(s, input, packets, now);
      case DoSend(now) => hide Inv, Send; SendKeepsInv(s, now);
      case DoEnd =>
    }
  }

  // ---------------------------------------------------------------------------------------------
  // What a session guarantees
  // ---------------------------------------------------------------------------------------------

  /** In every reachable state: each direction's replies left in the order submitted, none twice and
      none lost, and none before its due time. */
  lemma RepliesInOrder(steps: seq<Step>)
    requires forall i :: 0 <= i < |steps| ==> ValidStep(steps[i])
    ensures InOrder(Run(steps)) && NeverEarly(Run(steps)) && Accounted(Run(steps))
  {
    RunKeepsInv(steps);
  }

  /** The reply sent is always the earliest due of both directions. */
  lemma EarliestFirst(steps: seq<Step>, now: nat, j: nat)
    requires forall i :: 0 <= i < |steps| ==> ValidStep(steps[i])
    requires j < |Send(Run(steps), now).queue| && |Send(Run(steps), now).sent| > |Run(steps).sent|
    ensures var t := Send(Run(steps), now);
            t.sent[|t.sent| - 1].reply.due <= t.queue[j].due
  {
    RunKeepsInv(steps);
  }

  function PacketSum(submitted: seq<Reply>, input: bool, first: nat, last: nat): nat
    requires first <= last <= |submitted|
    decreases last
  {
    if first == last then 0
    else
      PacketSum(submitted, input, first, last - 1)
      + if submitted[last - 1].input == input then submitted[last - 1].packets else 0
  }

  /** The total PCM between two submissions of a direction passes before the later is due. */
  lemma {:induction false} DuesAreRealTime(submitted: seq<Reply>, first: nat, last: nat, next: nat)
    requires Advancing(submitted) && first <= last <= next < |submitted|
    requires submitted[first].input == submitted[next].input
    ensures last > first ==> submitted[first].due + PacketSum(submitted, submitted[first].input, first, last) * US_PER_PACKET <= submitted[next].due
    decreases last
  {
    if last > first {
      var input := submitted[first].input;
      var n := last - 1;
      if n == first {
        assert PacketSum(submitted, input, first, first) == 0;
      } else if submitted[n].input == input {
        DuesAreRealTime(submitted, first, n, n);
        assert submitted[n].due + submitted[n].packets * US_PER_PACKET <= submitted[next].due;
      } else {
        DuesAreRealTime(submitted, first, n, next);
      }
    }
  }

  /** Over a session the host hears a direction no faster than real time. */
  lemma NeverFasterThanRealTime(steps: seq<Step>, i: nat, j: nat)
    requires forall k :: 0 <= k < |steps| ==> ValidStep(steps[k])
    requires i < j < |Run(steps).submitted| && Run(steps).submitted[i].input == Run(steps).submitted[j].input
    ensures var s := Run(steps).submitted;
            s[i].due + PacketSum(s, s[i].input, i, j) * US_PER_PACKET <= s[j].due
  {
    RunKeepsInv(steps);
    DuesAreRealTime(Run(steps).submitted, i, j, j);
  }

  /** The newest submission of a direction in the session. */
  function Newest(submitted: seq<Reply>, input: bool): Option<Reply> {
    if submitted == [] then None
    else
      var last := submitted[|submitted| - 1];
      if last.input == input then Some(last) else Newest(submitted[..|submitted| - 1], input)
  }

  /** Each anchor is where the newest submission of its direction ends. */
  ghost predicate AnchorsAtNewest(s: PacerState) {
    forall input: bool ::
      Anchor(s, input) == match Newest(s.submitted, input)
                          case None => 0
                          case Some(last) => last.due + last.packets * 1000
  }

  lemma {:induction false} AnchorsFollow(steps: seq<Step>)
    ensures AnchorsAtNewest(Run(steps))
  {
    if steps != [] {
      var s, step := Run(steps[..|steps| - 1]), steps[|steps| - 1];
      AnchorsFollow(steps[..|steps| - 1]);
      match step
      case DoSubmit(input, packets, now) => SubmitAnchors(s, input, packets, now);
      case DoSend(now) => SendAnchors(s, now);
      case DoEnd =>
    }
  }

  lemma SubmitAnchors(s: PacerState, input: bool, packets: nat, now: nat)
    requires AnchorsAtNewest(s)
    ensures AnchorsAtNewest(Submit(s, input, packets, now))
  {
    hide DueFor, Inserted;
    var t := Submit(s, input, packets, now);
    assert t.submitted[..|t.submitted| - 1] == s.submitted;
    assert Newest(t.submitted, !input) == Newest(s.submitted, !input);
  }

  lemma SendAnchors(s: PacerState, now: nat)
    requires AnchorsAtNewest(s)
    ensures AnchorsAtNewest(Send(s, now))
  {
  }

  /** In every reachable state a submission is due exactly where the one before it in its direction ends,
      a millisecond a packet; unless it is the first of the session, or comes more than 250 ms after that
      end: then it is due at once. It joins the queue, and nothing else is rescheduled. */
  lemma DueExactly(steps: seq<Step>, input: bool, packets: nat, now: nat)
    requires forall i :: 0 <= i < |steps| ==> ValidStep(steps[i])
    requires now > 0 && packets > 0
    ensures var s, t := Run(steps), Submit(Run(steps), input, packets, now);
            var due := match Newest(s.submitted, input)
                       case None => now
                       case Some(last) => if now > last.due + last.packets * 1000 + 250000 then now else last.due + last.packets * 1000;
            var reply := Reply(|s.submitted|, input, due, packets);
            && t.submitted == s.submitted + [reply] && t.sent == s.sent
            && multiset(t.queue) == multiset(s.queue) + multiset{reply}
  {
    hide Run, Inserted, Inv, Sorted, Advancing, Anchored, Accounted, InOrder, NeverEarly;
    var s := Run(steps);
    RunKeepsInv(steps);
    AnchorsFollow(steps);
    NewestStarts(s, input);
    InsertAdds(s.queue, Reply(|s.submitted|, input, DueFor(s, input, now), packets));
  }

  lemma NewestStarts(s: PacerState, input: bool)
    requires Inv(s)
    ensures Newest(s.submitted, input).Some? ==> Newest(s.submitted, input).value.due > 0
  {
    hide Sorted, Anchored, Accounted, InOrder, NeverEarly;
    NewestIsSubmitted(s.submitted, input);
  }

  lemma {:induction false} NewestIsSubmitted(submitted: seq<Reply>, input: bool)
    ensures Newest(submitted, input).Some? ==> Newest(submitted, input).value in submitted
  {
    if submitted != [] && submitted[|submitted| - 1].input != input {
      NewestIsSubmitted(submitted[..|submitted| - 1], input);
    }
  }

  /** `count` rounds of the pacer thread. */
  function Rounds(s: PacerState, now: nat, count: nat): PacerState
    decreases count
  {
    if count == 0 then s else Rounds(Send(s, now), now, count - 1)
  }

  /** Exactly on time: rounds enough for the queue send, in its order, every reply that is due, and no
      other. */
  lemma SentWhenDueExactly(steps: seq<Step>, now: nat)
    requires forall i :: 0 <= i < |steps| ==> ValidStep(steps[i])
    ensures var s := Run(steps);
            var t := Rounds(s, now, |s.queue|);
            exists k: nat :: Splits(s, t, now, k)
  {
    RunKeepsInv(steps);
    hide Run;
    RoundsSplit(Run(steps), now, |Run(steps).queue|);
  }

  /** The first `k` of the queue were due and were sent at `now`; the others were not and still wait. */
  ghost predicate Splits(s: PacerState, t: PacerState, now: nat, k: nat) {
    && k <= |s.queue| && t.queue == s.queue[k..]
    && t.sent == s.sent + seq(k, i requires 0 <= i < k => Sent(s.queue[i], now))
    && (forall i :: 0 <= i < k ==> s.queue[i].due <= now)
    && (forall i :: k <= i < |s.queue| ==> now < s.queue[i].due)
  }

  lemma {:induction false} RoundsSplit(s: PacerState, now: nat, count: nat)
    requires Sorted(s.queue) && count >= |s.queue|
    ensures exists k: nat :: Splits(s, Rounds(s, now, count), now, k)
    decreases count
  {
    if s.queue == [] || now < s.queue[0].due {
      RoundsIdle(s, now, count);
      assert s.queue[0..] == s.queue && s.sent + [] == s.sent;
      assert Splits(s, s, now, 0);
    } else {
      var m := Send(s, now);
      RoundsSplit(m, now, count - 1);
      var k: nat :| Splits(m, Rounds(m, now, count - 1), now, k);
      SplitsOneMore(s, m, Rounds(m, now, count - 1), now, k);
      assert Rounds(s, now, count) == Rounds(m, now, count - 1);
      assert Splits(s, Rounds(s, now, count), now, k + 1);
    }
  }

  lemma SplitsOneMore(s: PacerState, m: PacerState, t: PacerState, now: nat, k: nat)
    requires s.queue != [] && s.queue[0].due <= now && m == Send(s, now) && Splits(m, t, now, k)
    ensures Splits(s, t, now, k + 1)
  {
    assert forall i :: 0 <= i < |m.queue| ==> m.queue[i] == s.queue[i + 1];
    assert t.queue == s.queue[k + 1..];
    var first := seq(k + 1, i requires 0 <= i < k + 1 => Sent(s.queue[i], now));
    assert first == [Sent(s.queue[0], now)] + seq(k, i requires 0 <= i < k => Sent(m.queue[i], now));
    assert t.sent == s.sent + first;
    forall i | k + 1 <= i < |s.queue| ensures now < s.queue[i].due {
      assert m.queue[i - 1] == s.queue[i];
    }
    forall i | 0 <= i < k + 1 ensures s.queue[i].due <= now {
      assert i > 0 ==> m.queue[i - 1] == s.queue[i];
    }
  }

  lemma {:induction false} RoundsIdle(s: PacerState, now: nat, count: nat)
    requires s.queue == [] || now < s.queue[0].due
    ensures Rounds(s, now, count) == s
    decreases count
  {
    if count > 0 {
      RoundsIdle(s, now, count - 1);
    }
  }

  // ---------------------------------------------------------------------------------------------
  // The pacer in its own form
  // ---------------------------------------------------------------------------------------------

  class Pacer {
    var isoOutNextDue: nat
    var isoInNextDue: nat
    var pacedReplies: seq<Reply>
    ghost var model: PacerState

    ghost predicate Valid()
      reads this
    {
      && isoOutNextDue == model.outNextDue && isoInNextDue == model.inNextDue && pacedReplies == model.queue
      && Inv(model)
    }

    constructor ()
      ensures Valid() && model == START
    {
      isoOutNextDue, isoInNextDue, pacedReplies, model := 0, 0, [], START;
    }

    method Emplace(reply: Reply) returns (queue: seq<Reply>)
      ensures queue == Inserted(pacedReplies, reply)
    {
      hide InsertPosition;
      var p := |pacedReplies|;
      while p > 0 && pacedReplies[p - 1].due > reply.due
        invariant 0 <= p <= |pacedReplies|
        invariant forall i :: p <= i < |pacedReplies| ==> pacedReplies[i].due > reply.due
        decreases p
      {
        p := p - 1;
      }
      PositionIs(pacedReplies, reply.due, p);
      queue := pacedReplies[..p] + [reply] + pacedReplies[p..];
    }

    /** The pacing part of a submission. `id` is its number in the session. */
    method PaceReply(id: nat, input: bool, packets: nat, now: nat) returns (due: nat)
      requires Valid() && now > 0 && packets > 0 && id == |model.submitted|
      modifies this
      ensures Valid() && model == Submit(old(model), input, packets, now) && due == DueFor(old(model), input, now)
      ensures var anchor := old(if input then isoInNextDue else isoOutNextDue);
              due == if anchor > 0 && anchor + 250000 >= now then anchor else now
      ensures (if input then isoInNextDue else isoOutNextDue) == due + packets * 1000
      ensures (if input then isoOutNextDue else isoInNextDue) == old(if input then isoOutNextDue else isoInNextDue)
    {
      hide Inv, Inserted;
      SubmitKeepsInv(model, input, packets, now);
      var anchor := if input then isoInNextDue else isoOutNextDue;
      if anchor == 0 || anchor + RESTART_US < now {
        anchor := now;
      }
      due := anchor;
      anchor := anchor + packets * US_PER_PACKET;
      if input {
        isoInNextDue := anchor;
      } else {
        isoOutNextDue := anchor;
      }
      pacedReplies := Emplace(Reply(id, input, due, packets));
      model := Submit(model, input, packets, now);
    }

    /** One round of the pacer thread. */
    method SendDue(now: nat) returns (reply: Option<Reply>)
      requires Valid()
      modifies this
      ensures Valid() && model == Send(old(model), now)
      ensures reply.Some? <==> old(pacedReplies) != [] && old(pacedReplies)[0].due <= now
      ensures reply.Some? ==> pacedReplies == old(pacedReplies)[1..] && reply.value == old(pacedReplies)[0]
    {
      hide Inv;
      SendKeepsInv(model, now);
      reply := None;
      if pacedReplies != [] && now >= pacedReplies[0].due {
        reply := Some(pacedReplies[0]);
        pacedReplies := pacedReplies[1..];
      }
      model := Send(model, now);
    }

    method EndSession()
      modifies this
      ensures Valid() && model == START
      ensures pacedReplies == [] && isoOutNextDue == 0 && isoInNextDue == 0
    {
      pacedReplies, isoOutNextDue, isoInNextDue, model := [], 0, 0, START;
    }
  }

  /** There is only one such place. */
  lemma PositionIs(queue: seq<Reply>, due: nat, p: nat)
    requires p <= |queue| && (p > 0 ==> queue[p - 1].due <= due)
    requires forall i :: p <= i < |queue| ==> queue[i].due > due
    ensures p == InsertPosition(queue, due)
  {
  }
}
