/** Bluetooth state and audio output of a virtual port of the Linux daemon (src/platform/linux/vdsd.cc).
    The link may refuse a report at any time; state is then deferred and coalesced, audio dropped. */
module VdsdState {
  import opened VdsTypes

  const MAX_PENDING_AUDIO: nat := 8
  const FRESH_PENDING_AUDIO: nat := 4
  const AUDIO_INTERVAL_US: nat := 10000
  const BLOCKED_RETRY_US: nat := 2000

  /** The controller state at one moment; `taken` numbers the snapshots in the order they were taken. */
  datatype Snapshot<S> = Snapshot(state: S, taken: nat)

  /** A report that carries a full state, on its own or with an audio chunk. */
  datatype Sent<S> = StateReport(snapshot: Snapshot<S>) | AudioReport(snapshot: Snapshot<S>, chunk: nat, at: nat)

  /** `pending` is a report the link refused. Audio chunks are named by the order they came in; a send
      time of 0 means none is set. `link` is what the current connection accepted. */
  datatype Port<S> = Port(
    state: S,
    connected: bool,
    lastSent: Option<S>,
    pending: Option<Snapshot<S>>,
    audio: seq<nat>,
    nextAudioSend: nat,
    // history
    taken: nat,
    chunks: nat,
    link: seq<Sent<S>>)

  function Init<S>(state: S): Port<S> {
    Port(state, false, None, None, [], 0, 0, 0, [])
  }

  /** Try the refused report again. The second result is whether nothing is left pending. */
  function FlushPending<S(==)>(p: Port<S>, accepts: bool): (Port<S>, bool) {
    match p.pending
    case None => (p, true)
    case Some(snapshot) =>
      if accepts then
        (p.(lastSent := Some(snapshot.state), pending := None, link := p.link + [StateReport(snapshot)]), true)
      else (p, false)
  }

  /** Bring the controller up to the current state, if the link lets it. */
  function Forward<S(==)>(p: Port<S>, acceptsPending: bool, acceptsNew: bool): Port<S> {
    if !p.connected then p
    else
      ForwardNew(FlushPending(p, acceptsPending).0, acceptsNew)
  }

  /** Nothing to do if the state is known or pending; else a new snapshot goes out or becomes pending. */
  function ForwardNew<S(==)>(f: Port<S>, accepts: bool): Port<S> {
    if f.lastSent == Some(f.state) then f.(pending := None)
    else if f.pending.Some? && f.pending.value.state == f.state then f
    else
      var snapshot := Snapshot(f.state, f.taken);
      if accepts then
        f.(taken := f.taken + 1, lastSent := Some(f.state), pending := None, link := f.link + [StateReport(snapshot)])
      else f.(taken := f.taken + 1, pending := Some(snapshot))
  }

  function Newest(audio: seq<nat>): seq<nat> {
    if |audio| > FRESH_PENDING_AUDIO then audio[|audio| - FRESH_PENDING_AUDIO..] else audio
  }

  /** Send the next audio chunk with the current state, unless it is too early. A refused one is dropped. */
  function FlushAudio<S(==)>(p: Port<S>, accepts: bool, now: nat, later: nat): Port<S> {
    if p.audio == [] || (p.nextAudioSend != 0 && now < p.nextAudioSend) then p
    else
      var waiting := Newest(p.audio);
      var snapshot := Snapshot(p.state, p.taken);
      var popped := p.(audio := waiting[1..], taken := p.taken + 1);
      if !accepts then popped.(nextAudioSend := later + BLOCKED_RETRY_US)
      else
        popped.(lastSent := Some(p.state),
                pending := if p.pending.Some? && p.pending.value.state == p.state then None else p.pending,
                nextAudioSend := now + AUDIO_INTERVAL_US,
                link := p.link + [AudioReport(snapshot, waiting[0], now)])
  }

  /** The next `count` chunk numbers. */
  function Numbered(first: nat, count: nat): seq<nat> {
    seq(count, i requires 0 <= i < count => first + i)
  }

  /** Chunks of the test tone fill an empty queue. */
  function QueueTone<S>(p: Port<S>, count: nat): Port<S> {
    if p.audio != [] then p
    else
      p.(audio := Numbered(p.chunks, Min(count, MAX_PENDING_AUDIO)), chunks := p.chunks + count)
  }

  /** One chunk of USB audio; the oldest makes room. */
  function QueueAudio<S>(p: Port<S>): Port<S> {
    p.(audio := (if |p.audio| >= MAX_PENDING_AUDIO then p.audio[1..] else p.audio) + [p.chunks], chunks := p.chunks + 1)
  }

  /** The periodic flush: audio goes out only once no state is pending. */
  function FlushOutputs<S(==)>(p: Port<S>, acceptsPending: bool, tone: nat, acceptsAudio: bool, now: nat, later: nat): Port<S> {
    if !p.connected then p
    else
      var (f, done) := FlushPending(p, acceptsPending);
      if done then FlushAudio(QueueTone(f, tone), acceptsAudio, now, later) else f
  }

  /** A controller comes up: everything starts afresh, and the first report carries the whole state. */
  function Connect<S(==)>(p: Port<S>, state: S): Port<S> {
    Port(state, true, Some(state), None, [], 0, p.taken + 1, p.chunks, [StateReport(Snapshot(state, p.taken))])
  }

  function Disconnect<S>(p: Port<S>): Port<S> {
    p.(connected := false, audio := [], nextAudioSend := 0)
  }

  function Drop<S>(p: Port<S>): Port<S> {
    Disconnect(p.(pending := None))
  }

  datatype Step<S> =
    | DoSetState(state: S)
    | DoForward(acceptsPending: bool, acceptsNew: bool)
    | DoFlush(acceptsPending: bool, tone: nat, acceptsAudio: bool, now: nat, later: nat)
    | DoQueueAudio
    | DoClearAudio
    | DoConnect(state: S)
    | DoDisconnect
    | DoDrop

  function Next<S(==)>(p: Port<S>, step: Step<S>): Port<S> {
    match step
    case DoSetState(state) => p.(state := state)
    case DoForward(acceptsPending, acceptsNew) => Forward(p, acceptsPending, acceptsNew)
    case DoFlush(acceptsPending, tone, acceptsAudio, now, later) => FlushOutputs(p, acceptsPending, tone, acceptsAudio, now, later)
    case DoQueueAudio => QueueAudio(p)
    case DoClearAudio => p.(audio := [])
    case DoConnect(state) => Connect(p, state)
    case DoDisconnect => Disconnect(p)
    case DoDrop => Drop(p)
  }

  function Run<S(==)>(p: Port<S>, steps: seq<Step<S>>): Port<S> {
    if steps == [] then p else Next(Run(p, steps[..|steps| - 1]), steps[|steps| - 1])
  }

  // ---------------------------------------------------------------------------------------------
  // Invariants
  // ---------------------------------------------------------------------------------------------

  /** Every snapshot that went out was taken before number `bound`. */
  ghost predicate TakenBefore<S>(link: seq<Sent<S>>, bound: nat) {
    forall i :: 0 <= i < |link| ==> link[i].snapshot.taken < bound
  }

  ghost predicate Chronological<S>(link: seq<Sent<S>>) {
    forall i, j :: 0 <= i < j < |link| ==> link[i].snapshot.taken < link[j].snapshot.taken
  }

  /** Snapshots go out in the order they were taken, and a pending one is newer than all that went out. */
  ghost predicate InOrder<S>(p: Port<S>) {
    && Chronological(p.link) && TakenBefore(p.link, p.taken)
    && (p.pending.Some? ==> p.pending.value.taken < p.taken && TakenBefore(p.link, p.pending.value.taken))
  }

  /** The last state sent is remembered as such. */
  ghost predicate Remembered<S>(p: Port<S>) {
    p.connected ==> p.link != [] && p.lastSent == Some(p.link[|p.link| - 1].snapshot.state)
  }

  ghost predicate ChunksBefore<S>(link: seq<Sent<S>>, bound: nat) {
    forall i :: 0 <= i < |link| && link[i].AudioReport? ==> link[i].chunk < bound
  }

  ghost predicate Rising(audio: seq<nat>) {
    forall i, j :: 0 <= i < j < |audio| ==> audio[i] < audio[j]
  }

  ghost predicate ChunksRise<S>(link: seq<Sent<S>>) {
    forall i, j :: 0 <= i < j < |link| && link[i].AudioReport? && link[j].AudioReport? ==> link[i].chunk < link[j].chunk
  }

  /** Chunks wait and go out in the order they came in. */
  ghost predicate ChunksInOrder<S>(p: Port<S>) {
    && |p.audio| <= MAX_PENDING_AUDIO && Rising(p.audio) && ChunksRise(p.link) && ChunksBefore(p.link, p.chunks)
    && (p.audio != [] ==> p.audio[|p.audio| - 1] < p.chunks && ChunksBefore(p.link, p.audio[0]))
  }

  ghost predicate AudioDue<S>(link: seq<Sent<S>>, time: nat) {
    forall i :: 0 <= i < |link| && link[i].AudioReport? ==> link[i].at + AUDIO_INTERVAL_US <= time
  }

  ghost predicate AudioApart<S>(link: seq<Sent<S>>) {
    forall i, j :: 0 <= i < j < |link| && link[i].AudioReport? && link[j].AudioReport? ==>
                     link[i].at + AUDIO_INTERVAL_US <= link[j].at
  }

  /** Audio reports of a connection are at least one speaker frame apart. */
  ghost predicate Spaced<S>(p: Port<S>) {
    AudioApart(p.link) && (p.connected ==> AudioDue(p.link, p.nextAudioSend))
  }

  /** The clock does not run backwards within a flush. */
  predicate ValidStep<S>(step: Step<S>) {
    step.DoFlush? ==> step.now <= step.later
  }

  ghost predicate Inv<S>(p: Port<S>) {
    InOrder(p) && Remembered(p) && ChunksInOrder(p) && Spaced(p)
  }

  lemma SentStaysInOrder<S>(link: seq<Sent<S>>, r: Sent<S>, bound: nat)
    requires Chronological(link) && TakenBefore(link, r.snapshot.taken) && r.snapshot.taken < bound
    ensures Chronological(link + [r]) && TakenBefore(link + [r], bound)
  {
  }

  /** A report that goes out: its snapshot is newer than all before, its chunk, if any, too. */
  lemma SendKeepsInv<S>(p: Port<S>, t: Port<S>, r: Sent<S>)
    requires Inv(p) && p.connected && r.snapshot.taken < t.taken && p.taken <= t.taken && TakenBefore(p.link, r.snapshot.taken)
    requires t == p.(lastSent := Some(r.snapshot.state), pending := None, link := p.link + [r], taken := t.taken,
                     audio := t.audio, nextAudioSend := t.nextAudioSend)
    requires r.StateReport? ==> t.audio == p.audio && t.nextAudioSend == p.nextAudioSend
    requires r.AudioReport? ==>
               && Suffix(t.audio, p.audio) && |t.audio| < |p.audio| && r.chunk == p.audio[|p.audio| - |t.audio| - 1]
               && AudioDue(p.link, r.at) && t.nextAudioSend == r.at + AUDIO_INTERVAL_US
    ensures Inv(t)
  {
    hide Chronological, TakenBefore;
    SentStaysInOrder(p.link, r, t.taken);
    SendKeepsChunks(p, t, r);
    hide ChunksInOrder, InOrder;
  }

  lemma SendKeepsChunks<S>(p: Port<S>, t: Port<S>, r: Sent<S>)
    requires ChunksInOrder(p) && t.link == p.link + [r] && t.chunks == p.chunks
    requires r.StateReport? ==> t.audio == p.audio
    requires r.AudioReport? ==>
               Suffix(t.audio, p.audio) && |t.audio| < |p.audio| && r.chunk == p.audio[|p.audio| - |t.audio| - 1]
    ensures ChunksInOrder(t)
  {
    if r.AudioReport? {
      assert p.audio != [];
      assert r.chunk >= p.audio[0] && r.chunk <= p.audio[|p.audio| - 1];
      SuffixRises(t.audio, p.audio);
    }
  }

  ghost predicate Suffix(a: seq<nat>, b: seq<nat>) {
    |a| <= |b| && a == b[|b| - |a|..]
  }

  lemma SuffixRises(a: seq<nat>, b: seq<nat>)
    requires Suffix(a, b) && Rising(b)
    ensures Rising(a)
    ensures a != [] ==> a[|a| - 1] == b[|b| - 1] && forall i :: 0 <= i < |b| - |a| ==> b[i] < a[0]
  {
    assert forall i :: 0 <= i < |a| ==> a[i] == b[|b| - |a| + i];
  }

  lemma FlushPendingKeepsInv<S>(p: Port<S>, accepts: bool)
    requires Inv(p) && p.connected
    ensures Inv(FlushPending(p, accepts).0)
    ensures FlushPending(p, accepts).1 <==> FlushPending(p, accepts).0.pending.None?
    ensures FlushPending(p, accepts).0.connected
  {
    assert InOrder(p);
    if p.pending.Some? && accepts {
      hide Inv;
      SendKeepsInv(p, FlushPending(p, accepts).0, StateReport(p.pending.value));
    }
  }

  /** Forgetting or replacing a pending report. */
  lemma PendKeepsInv<S>(p: Port<S>, pending: Option<Snapshot<S>>, taken: nat)
    requires Inv(p) && p.taken <= taken && (pending.Some? ==> p.taken <= pending.value.taken < taken)
    ensures Inv(p.(pending := pending, taken := taken))
  {
    hide Chronological, ChunksBefore, ChunksRise, AudioApart, AudioDue;
  }

  lemma NewSnapshot<S>(p: Port<S>)
    requires Inv(p)
    ensures TakenBefore(p.link, p.taken)
  {
  }

  lemma ForwardNewKeepsInv<S>(f: Port<S>, accepts: bool)
    requires Inv(f) && f.connected
    ensures Inv(ForwardNew(f, accepts))
  {
    hide Inv;
    NewSnapshot(f);
    if f.lastSent == Some(f.state) {
      PendKeepsInv(f, None, f.taken);
    } else if f.pending.Some? && f.pending.value.state == f.state {
    } else if accepts {
      SendKeepsInv(f, ForwardNew(f, accepts), StateReport(Snapshot(f.state, f.taken)));
    } else {
      PendKeepsInv(f, Some(Snapshot(f.state, f.taken)), f.taken + 1);
    }
  }

  lemma ForwardKeepsInv<S>(p: Port<S>, acceptsPending: bool, acceptsNew: bool)
    requires Inv(p)
    ensures Inv(Forward(p, acceptsPending, acceptsNew))
  {
    if p.connected {
      hide Inv, FlushPending, ForwardNew;
      FlushPendingKeepsInv(p, acceptsPending);
      ForwardNewKeepsInv(FlushPending(p, acceptsPending).0, acceptsNew);
    }
  }

  lemma DueByNow<S>(p: Port<S>, now: nat)
    requires Inv(p) && p.connected && (p.nextAudioSend == 0 || now >= p.nextAudioSend)
    ensures AudioDue(p.link, now)
  {
  }

  lemma DropFrontKeepsInv<S>(p: Port<S>, audio: seq<nat>, time: nat)
    requires Inv(p) && Suffix(audio, p.audio) && (p.connected ==> time >= p.nextAudioSend)
    ensures Inv(p.(audio := audio, nextAudioSend := time, taken := p.taken + 1))
  {
    SuffixRises(audio, p.audio);
  }

  lemma FlushAudioKeepsInv<S>(p: Port<S>, accepts: bool, now: nat, later: nat)
    requires Inv(p) && p.connected && p.pending.None? && now <= later
    ensures Inv(FlushAudio(p, accepts, now, later))
  {
    hide Inv, TakenBefore, AudioDue;
    if p.audio != [] && (p.nextAudioSend == 0 || now >= p.nextAudioSend) {
      var waiting := Newest(p.audio);
      assert Suffix(waiting[1..], p.audio) && waiting[0] == p.audio[|p.audio| - |waiting[1..]| - 1];
      if accepts {
        NewSnapshot(p);
        DueByNow(p, now);
        SendKeepsInv(p, FlushAudio(p, accepts, now, later), AudioReport(Snapshot(p.state, p.taken), waiting[0], now));
      } else {
        DropFrontKeepsInv(p, waiting[1..], later + BLOCKED_RETRY_US);
      }
    }
  }

  lemma QueueToneKeepsInv<S>(p: Port<S>, count: nat)
    requires Inv(p)
    ensures Inv(QueueTone(p, count)) && QueueTone(p, count).pending == p.pending && QueueTone(p, count).connected == p.connected
  {
    hide Chronological, TakenBefore, ChunksRise, AudioApart, AudioDue;
  }

  lemma QueueAudioKeepsInv<S>(p: Port<S>)
    requires Inv(p)
    ensures Inv(QueueAudio(p))
  {
    hide Chronological, TakenBefore, ChunksRise, AudioApart, AudioDue;
  }

  lemma FlushOutputsKeepsInv<S>(p: Port<S>, acceptsPending: bool, tone: nat, acceptsAudio: bool, now: nat, later: nat)
    requires Inv(p) && now <= later
    ensures Inv(FlushOutputs(p, acceptsPending, tone, acceptsAudio, now, later))
  {
    hide Inv, FlushPending, QueueTone, FlushAudio;
    if p.connected {
      FlushPendingKeepsInv(p, acceptsPending);
      var f := FlushPending(p, acceptsPending).0;
      QueueToneKeepsInv(f, tone);
      if f.pending.None? {
        FlushAudioKeepsInv(QueueTone(f, tone), acceptsAudio, now, later);
      }
    }
  }

  lemma NextKeepsInv<S>(p: Port<S>, step: Step<S>)
    requires Inv(p) && ValidStep(step)
    ensures Inv(Next(p, step))
  {
    match step
    case DoForward(acceptsPending, acceptsNew) =>
      hide Inv, Forward;
      ForwardKeepsInv(p, acceptsPending, acceptsNew);
    case DoFlush(acceptsPending, tone, acceptsAudio, now, later) =>
      hide Inv, FlushOutputs;
      FlushOutputsKeepsInv(p, acceptsPending, tone, acceptsAudio, now, later);
    case DoQueueAudio =>
      hide Inv, QueueAudio;
      QueueAudioKeepsInv(p);
    case _ =>
  }

  lemma {:induction false} RunKeepsInv<S>(state: S, steps: seq<Step<S>>)
    requires forall i :: 0 <= i < |steps| ==> ValidStep(steps[i])
    ensures Inv(Run(Init(state), steps))
  {
    if steps != [] {
      hide Inv, Next;
      RunKeepsInv(state, steps[..|steps| - 1]);
      NextKeepsInv(Run(Init(state), steps[..|steps| - 1]), steps[|steps| - 1]);
    }
  }

  // ---------------------------------------------------------------------------------------------
  // What coalescing guarantees
  // ---------------------------------------------------------------------------------------------

  /** After a forward to a connected controller the current state is what was sent last, with nothing
      pending, or is itself what is pending. */
  lemma ForwardSettles<S>(p: Port<S>, acceptsPending: bool, acceptsNew: bool)
    requires p.connected
    ensures var t := Forward(p, acceptsPending, acceptsNew);
            && t.state == p.state
            && if t.pending.None? then t.lastSent == Some(t.state) else t.pending.value.state == t.state
  {
  }

  /** So once the link accepts and the state stands still, the controller has it after one flush. */
  lemma FlushCatchesUp<S>(p: Port<S>, acceptsPending: bool, acceptsNew: bool)
    requires Inv(p) && p.connected
    ensures var t := FlushPending(Forward(p, acceptsPending, acceptsNew), true).0;
            && t.pending.None? && t.link != [] && t.link[|t.link| - 1].snapshot.state == p.state
  {
    ForwardKeepsInv(p, acceptsPending, acceptsNew);
    ForwardSettles(p, acceptsPending, acceptsNew);
    assert Remembered(Forward(p, acceptsPending, acceptsNew));
  }

  /** Over any run, on any connection: no older state follows a newer one, in state or audio reports;
      audio is in order, no chunk twice, at least 10 ms apart; the daemon knows what was sent last. */
  lemma LinkIsChronological<S>(state: S, steps: seq<Step<S>>)
    requires forall i :: 0 <= i < |steps| ==> ValidStep(steps[i])
    ensures var p := Run(Init(state), steps);
            && Chronological(p.link) && ChunksRise(p.link) && AudioApart(p.link)
            && (p.connected ==> p.link != [] && p.lastSent == Some(p.link[|p.link| - 1].snapshot.state))
  {
    RunKeepsInv(state, steps);
  }

  /** What a forward sends, and when the controller is up to date after it: unless the refused report that
      is still pending carries the very state, the state goes out if the link accepts it. */
  lemma ForwardExactly<S>(p: Port<S>, acceptsPending: bool, acceptsNew: bool)
    requires p.connected
    ensures var t := Forward(p, acceptsPending, acceptsNew);
            var resent := if p.pending.Some? && acceptsPending then [StateReport(p.pending.value)] else [];
            var known := if resent != [] then Some(p.pending.value.state) else p.lastSent;
            var stillPending := p.pending.Some? && !acceptsPending && p.pending.value.state == p.state;
            if known == Some(p.state) then t.link == p.link + resent && t.pending.None? && t.lastSent == known
            else if stillPending then t.link == p.link && t.pending == p.pending && t.lastSent == known
            else if acceptsNew then
              t.link == p.link + resent + [StateReport(Snapshot(p.state, p.taken))] && t.pending.None? && t.lastSent == Some(p.state)
            else t.link == p.link + resent && t.pending == Some(Snapshot(p.state, p.taken)) && t.lastSent == known
  {
  }

  /** What a flush sends. Nothing while a refused report stays refused. After it, and once the time has
      come, the oldest of the newest four chunks goes out with the current state; refused, that chunk is
      lost and the next may follow in 2 ms, and otherwise in 10 ms. */
  lemma FlushExactly<S>(p: Port<S>, acceptsPending: bool, tone: nat, acceptsAudio: bool, now: nat, later: nat)
    requires p.connected
    ensures var t := FlushOutputs(p, acceptsPending, tone, acceptsAudio, now, later);
            if p.pending.Some? && !acceptsPending then t == p
            else
              var resent := if p.pending.Some? then [StateReport(p.pending.value)] else [];
              var known := if p.pending.Some? then Some(p.pending.value.state) else p.lastSent;
              var queue := if p.audio != [] then p.audio else seq(Min(tone, 8), i requires 0 <= i < Min(tone, 8) => p.chunks + i);
              && t.pending.None? && t.connected && t.state == p.state
              && if queue == [] || (p.nextAudioSend > 0 && now < p.nextAudioSend) then
                   t.link == p.link + resent && t.lastSent == known && t.audio == queue && t.nextAudioSend == p.nextAudioSend
                 else
                   var first := Max(|queue| - 4, 0);
                   && t.audio == queue[first + 1..]
                   && if acceptsAudio then
                        && t.link == p.link + resent + [AudioReport(Snapshot(p.state, p.taken), queue[first], now)]
                        && t.lastSent == Some(p.state) && t.nextAudioSend == now + 10000
                      else t.link == p.link + resent && t.lastSent == known && t.nextAudioSend == later + 2000
  {
    hide FlushAudio, QueueTone;
    if !(p.pending.Some? && !acceptsPending) {
      var f := FlushPending(p, acceptsPending).0;
      ToneExactly(f, tone);
      AudioExactly(QueueTone(f, tone), acceptsAudio, now, later);
    }
  }

  lemma ToneExactly<S>(p: Port<S>, tone: nat)
    ensures var t := QueueTone(p, tone);
            && t == p.(audio := t.audio, chunks := t.chunks)
            && t.audio == if p.audio != [] then p.audio else seq(Min(tone, 8), i requires 0 <= i < Min(tone, 8) => p.chunks + i)
  {
  }

  lemma AudioExactly<S>(p: Port<S>, accepts: bool, now: nat, later: nat)
    requires p.pending.None?
    ensures var t, first := FlushAudio(p, accepts, now, later), Max(|p.audio| - 4, 0);
            && t.pending.None? && t.connected == p.connected && t.state == p.state
            && if p.audio == [] || (p.nextAudioSend > 0 && now < p.nextAudioSend) then t == p
               else
                 && t.audio == p.audio[first + 1..]
                 && t.link == p.link + (if accepts then [AudioReport(Snapshot(p.state, p.taken), p.audio[first], now)] else [])
                 && t.lastSent == (if accepts then Some(p.state) else p.lastSent)
                 && t.nextAudioSend == (if accepts then now + 10000 else later + 2000)
  {
    var first := Max(|p.audio| - 4, 0);
    assert Newest(p.audio) == p.audio[first..];
    assert p.link + [] == p.link;
    hide Newest;
  }

  /** The queue holds the newest eight chunks. */
  lemma QueueIsNewest<S>(p: Port<S>)
    requires |p.audio| <= 8
    ensures var all := p.audio + [p.chunks];
            QueueAudio(p).audio == all[Max(|all| - 8, 0)..] && QueueAudio(p).link == p.link && QueueAudio(p).pending == p.pending
  {
  }

  /** A controller that comes up gets the whole state at once, and nothing of the connection before. */
  lemma ConnectsAfresh<S>(p: Port<S>, state: S)
    ensures var t := Connect(p, state);
            && t.connected && t.state == state && t.link == [StateReport(Snapshot(state, p.taken))] && t.lastSent == Some(state)
            && t.pending.None? && t.audio == [] && t.nextAudioSend == 0
    ensures var d := Disconnect(p);
            !d.connected && d.audio == [] && d.nextAudioSend == 0 && d.state == p.state && d.pending == p.pending
    ensures Drop(p).pending.None? && !Drop(p).connected && Drop(p).audio == []
  {
  }

  /** A state report never repeats what the controller has: neither the pending one nor any that went out. */
  ghost predicate NoRepeats<S>(p: Port<S>) {
    && (p.connected && p.pending.Some? ==> p.lastSent != Some(p.pending.value.state))
    && forall i :: 0 < i < |p.link| && p.link[i].StateReport? ==> p.link[i].snapshot.state != p.link[i - 1].snapshot.state
  }

  lemma NextNeverRepeats<S>(p: Port<S>, step: Step<S>)
    requires Inv(p) && NoRepeats(p)
    ensures NoRepeats(Next(p, step))
  {
    assert Remembered(p);
    hide InOrder, ChunksInOrder, Spaced;
    match step
    case DoForward(acceptsPending, acceptsNew) =>
      if p.connected {
        ForwardExactly(p, acceptsPending, acceptsNew);
        ForwardStays(p, acceptsPending, acceptsNew);
        hide Forward;
      }
    case DoFlush(acceptsPending, tone, acceptsAudio, now, later) =>
      if p.connected {
        FlushExactly(p, acceptsPending, tone, acceptsAudio, now, later);
        hide FlushOutputs;
      }
    case _ =>
  }

  lemma ForwardStays<S>(p: Port<S>, acceptsPending: bool, acceptsNew: bool)
    ensures Forward(p, acceptsPending, acceptsNew).connected == p.connected
  {
  }

  /** Over any run, each state report differs from the report before it. */
  lemma {:induction false} NeverRepeats<S>(state: S, steps: seq<Step<S>>)
    requires forall i :: 0 <= i < |steps| ==> ValidStep(steps[i])
    ensures NoRepeats(Run(Init(state), steps))
  {
    if steps != [] {
      hide Inv, Next, NoRepeats;
      RunKeepsInv(state, steps[..|steps| - 1]);
      NeverRepeats(state, steps[..|steps| - 1]);
      NextNeverRepeats(Run(Init(state), steps[..|steps| - 1]), steps[|steps| - 1]);
    } else {
      assert Run(Init(state), []) == Init(state);
    }
  }

  // ---------------------------------------------------------------------------------------------
  // The port in its own form
  // ---------------------------------------------------------------------------------------------

  /** The fields of a virtual port; `model` is the state above that they stand for. What the link answers
      to each attempt to send is a parameter. */
  class VirtualPort<S(==)> {
    var state: S
    var connected: bool
    var lastSentBtState: Option<S>
    var pendingBtState: Option<S>
    var pendingBtStateReport: Option<S>
    var pendingAudioChunks: seq<nat>
    var nextHapticsSendTime: nat
    ghost var model: Port<S>

    ghost predicate Valid()
      reads this
    {
      Agrees() && Inv(model)
    }

    ghost predicate Agrees()
      reads this
    {
      && state == model.state && connected == model.connected && lastSentBtState == model.lastSent
      && pendingBtState == pendingBtStateReport == (if model.pending.Some? then Some(model.pending.value.state) else None)
      && pendingAudioChunks == model.audio && nextHapticsSendTime == model.nextAudioSend
    }

    constructor (initial: S)
      ensures Valid() && model == Init(initial)
    {
      state, connected, lastSentBtState, pendingBtState, pendingBtStateReport := initial, false, None, None, None;
      pendingAudioChunks, nextHapticsSendTime, model := [], 0, Init(initial);
    }

    method FlushPendingBtStateReport(accepts: bool) returns (flushed: bool)
      requires Agrees()
      modifies this
      ensures Agrees() && (model, flushed) == FlushPending(old(model), accepts)
    {
      flushed := true;
      if pendingBtStateReport.Some? && pendingBtState.Some? {
        if accepts {
          lastSentBtState := pendingBtState;
          pendingBtState, pendingBtStateReport := None, None;
        } else {
          flushed := false;
        }
      }
      model := FlushPending(model, accepts).0;
    }

    method ForwardBtStateIfChanged(acceptsPending: bool, acceptsNew: bool)
      requires Valid() && connected
      modifies this
      ensures Valid() && model == Forward(old(model), acceptsPending, acceptsNew)
    {
      hide Inv;
      ForwardKeepsInv(model, acceptsPending, acceptsNew);
      ghost var t := Forward(model, acceptsPending, acceptsNew);
      var flushed := FlushPendingBtStateReport(acceptsPending);
      if lastSentBtState == Some(state) {
        pendingBtState, pendingBtStateReport := None, None;
      } else if pendingBtState == Some(state) {
      } else if acceptsNew {
        lastSentBtState := Some(state);
        pendingBtState, pendingBtStateReport := None, None;
      } else {
        pendingBtState, pendingBtStateReport := Some(state), Some(state);
      }
      model := t;
    }

    method DropStaleChunks()
      modifies this`pendingAudioChunks
      ensures pendingAudioChunks == Newest(old(pendingAudioChunks))
    {
      ghost var queued := pendingAudioChunks;
      assert queued[0..] == queued;
      while |pendingAudioChunks| > FRESH_PENDING_AUDIO
        invariant |pendingAudioChunks| <= |queued| && pendingAudioChunks == queued[|queued| - |pendingAudioChunks|..]
        invariant |pendingAudioChunks| >= Min(|queued|, FRESH_PENDING_AUDIO)
      {
        pendingAudioChunks := pendingAudioChunks[1..];
      }
    }

    method FlushPendingAudioChunk(accepts: bool, now: nat, later: nat) returns (sent: bool)
      requires Agrees()
      modifies this
      ensures Agrees() && model == FlushAudio(old(model), accepts, now, later)
      ensures !sent <==> old(pendingAudioChunks) != [] && (old(nextHapticsSendTime) == 0 || now >= old(nextHapticsSendTime)) && !accepts
    {
      sent := true;
      if pendingAudioChunks != [] && (nextHapticsSendTime == 0 || now >= nextHapticsSendTime) {
        DropStaleChunks();
        pendingAudioChunks := pendingAudioChunks[1..];
        if accepts {
          lastSentBtState := Some(state);
          if pendingBtState == lastSentBtState {
            pendingBtState, pendingBtStateReport := None, None;
          }
          nextHapticsSendTime := now + AUDIO_INTERVAL_US;
        } else {
          nextHapticsSendTime := later + BLOCKED_RETRY_US;
          sent := false;
        }
      }
      model := FlushAudio(model, accepts, now, later);
    }

    /** Queue the chunks of the test tone while there is room, if nothing waits. */
    method EnqueueSpeakerWaveout(tone: seq<nat>)
      requires Agrees() && tone == Numbered(model.chunks, |tone|)
      modifies this
      ensures Agrees() && model == QueueTone(old(model), |tone|)
    {
      if pendingAudioChunks == [] {
        var i := 0;
        while i < |tone| && |pendingAudioChunks| < MAX_PENDING_AUDIO
          invariant i <= |tone| && i <= MAX_PENDING_AUDIO && pendingAudioChunks == tone[..i]
          invariant state == old(state) && connected == old(connected) && lastSentBtState == old(lastSentBtState)
          invariant pendingBtState == old(pendingBtState) && pendingBtStateReport == old(pendingBtStateReport)
          invariant nextHapticsSendTime == old(nextHapticsSendTime) && model == old(model)
        {
          pendingAudioChunks := pendingAudioChunks + [tone[i]];
          i := i + 1;
        }
      }
      model := QueueTone(model, |tone|);
    }

    /** The round of `flush_pending_outputs` for this port; `tone` are the chunks of the test tone ready. */
    method FlushPendingOutputs(acceptsPending: bool, tone: seq<nat>, acceptsAudio: bool, now: nat, later: nat)
      requires Valid() && connected && now <= later && tone == Numbered(model.chunks, |tone|)
      modifies this
      ensures Valid() && model == FlushOutputs(old(model), acceptsPending, |tone|, acceptsAudio, now, later)
    {
      hide Inv, FlushAudio, FlushPending, QueueTone, Numbered;
      FlushOutputsKeepsInv(model, acceptsPending, |tone|, acceptsAudio, now, later);
      FlushPendingKeepsChunks(model, acceptsPending);
      var flushed := FlushPendingBtStateReport(acceptsPending);
      if flushed {
        EnqueueSpeakerWaveout(tone);
        var sent := FlushPendingAudioChunk(acceptsAudio, now, later);
      }
    }
  }

  lemma FlushPendingKeepsChunks<S>(p: Port<S>, accepts: bool)
    ensures FlushPending(p, accepts).0.chunks == p.chunks
  {
  }
}
