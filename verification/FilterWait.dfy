/** Device-change notification of the Windows filter driver (windrv/vds_filter/vds_filter.c): a device list
    under a mutex, a generation and a wait queue under a spin lock, and notifiers that advance the one
    and then drain the other. One step is one lock region. */
module FilterWait {
  import opened VdsTypes

  const MAX_DEVICES: nat := 8

  /** A device extension's identity and what its hardware ids say. */
  type Device = nat
  datatype Item = Item(reportTarget: bool, address: string)

  predicate Restricted(item: Item) {
    item.reportTarget || item.address != ""
  }

  // ---------------------------------------------------------------------------------------------
  // What a listing shows
  // ---------------------------------------------------------------------------------------------

  predicate ContainsAddress(entries: seq<Item>, address: string) {
    exists i :: 0 <= i < |entries| && entries[i].address == address
  }

  /** An entry is left out when the output is full or already shows its address. */
  function Append(entries: seq<Item>, item: Item): seq<Item> {
    if |entries| >= MAX_DEVICES || (item.address != "" && ContainsAddress(entries, item.address)) then entries
    else entries + [item]
  }

  /** The entries for the devices of one kind among the first `n` of the list. */
  function AppendKind(entries: seq<Item>, list: seq<Device>, items: map<Device, Item>, targets: bool, n: nat): seq<Item>
    requires n <= |list|
  {
    if n == 0 then entries
    else
      var before := AppendKind(entries, list, items, targets, n - 1);
      if list[n - 1] in items && items[list[n - 1]].reportTarget == targets then Append(before, items[list[n - 1]]) else before
  }

  /** Report targets first. */
  function Listing(list: seq<Device>, items: map<Device, Item>): seq<Item> {
    AppendKind(AppendKind([], list, items, true, |list|), list, items, false, |list|)
  }

  lemma {:induction false} AppendKindLimits(entries: seq<Item>, list: seq<Device>, items: map<Device, Item>, targets: bool, n: nat)
    requires n <= |list| && Shown(entries)
    ensures Shown(AppendKind(entries, list, items, targets, n))
  {
    if n > 0 {
      AppendKindLimits(entries, list, items, targets, n - 1);
    }
  }

  /** At most eight entries, and no address twice. */
  ghost predicate Shown(entries: seq<Item>) {
    && |entries| <= MAX_DEVICES
    && forall i, j :: 0 <= i < j < |entries| && entries[i].address != "" ==> entries[i].address != entries[j].address
  }

  lemma ListingLimits(list: seq<Device>, items: map<Device, Item>)
    ensures Shown(Listing(list, items))
  {
    AppendKindLimits([], list, items, true, |list|);
    AppendKindLimits(AppendKind([], list, items, true, |list|), list, items, false, |list|);
  }

  /** `entries` show an item: as it is, or another with its address. */
  ghost predicate Shows(entries: seq<Item>, x: Item) {
    exists i :: 0 <= i < |entries| && (entries[i] == x || (x.address != "" && entries[i].address == x.address))
  }

  function ItemsOf(list: seq<Device>, items: map<Device, Item>): (r: seq<Item>)
    requires forall i :: 0 <= i < |list| ==> list[i] in items
    ensures |r| == |list| && forall i :: 0 <= i < |r| ==> r[i] == items[list[i]]
  {
    seq(|list|, i requires 0 <= i < |list| => items[list[i]])
  }

  /** What a listing of the devices says. */
  ghost predicate Faithful(entries: seq<Item>, devices: seq<Item>) {
    // nothing but the devices, one without an address not more often than there are such
    && (forall x :: x in entries ==> x in devices)
    && (forall x :: x in entries && x.address == "" ==> multiset(entries)[x] <= multiset(devices)[x])
    // all of them, if there is room
    && (|entries| < 8 ==> forall x :: x in devices ==> Shows(entries, x))
    && (|entries| < 8 ==> forall x :: x in devices && x.address == "" ==> multiset(entries)[x] == multiset(devices)[x])
    // report targets first, and another only if all of those are shown
    && (forall i, j :: 0 <= i < j < |entries| && entries[j].reportTarget ==> entries[i].reportTarget)
    && (forall i, x :: 0 <= i < |entries| && !entries[i].reportTarget && x in devices && x.reportTarget ==> Shows(entries, x))
  }

  /** How often an item without an address occurs among the first `n` devices of its kind. */
  function CountOf(list: seq<Device>, items: map<Device, Item>, n: nat, x: Item): nat
    requires n <= |list|
  {
    if n == 0 then 0 else CountOf(list, items, n - 1, x) + if list[n - 1] in items && items[list[n - 1]] == x then 1 else 0
  }

  lemma {:induction false} CountIs(list: seq<Device>, items: map<Device, Item>, n: nat, x: Item)
    requires n <= |list| && forall i :: 0 <= i < |list| ==> list[i] in items
    ensures CountOf(list, items, n, x) == multiset(ItemsOf(list, items)[..n])[x]
  {
    if n > 0 {
      CountIs(list, items, n - 1, x);
      var all := ItemsOf(list, items);
      assert all[..n] == all[..n - 1] + [all[n - 1]];
    }
  }

  lemma ShownStays(entries: seq<Item>, x: Item, y: Item)
    ensures Shows(entries, y) ==> Shows(Append(entries, x), y)
    ensures |Append(entries, x)| < 8 ==> Shows(Append(entries, x), x)
    ensures entries <= Append(entries, x) && (forall z :: z in Append(entries, x) ==> z in entries || z == x)
    ensures x.address == "" && |Append(entries, x)| < 8 ==> Append(entries, x) == entries + [x]
  {
    var after := Append(entries, x);
    if Shows(entries, y) {
      var i :| 0 <= i < |entries| && (entries[i] == y || (y.address != "" && entries[i].address == y.address));
      assert after[i] == entries[i];
    }
    if |after| < 8 {
      if x.address != "" && ContainsAddress(entries, x.address) {
        var i :| 0 <= i < |entries| && entries[i].address == x.address;
      } else {
        assert after[|entries|] == x;
      }
    }
  }

  /** What one walk adds. */
  lemma {:induction false} WalkAdds(entries: seq<Item>, list: seq<Device>, items: map<Device, Item>, targets: bool, n: nat)
    requires n <= |list| && forall i :: 0 <= i < |list| ==> list[i] in items
    ensures var r := AppendKind(entries, list, items, targets, n);
            && entries <= r
            && (forall i :: |entries| <= i < |r| ==> r[i].reportTarget == targets && r[i] in ItemsOf(list, items)[..n])
            && (|r| < 8 ==> forall j :: 0 <= j < n && items[list[j]].reportTarget == targets ==> Shows(r, items[list[j]]))
  {
    hide Append;
    if n > 0 {
      WalkAdds(entries, list, items, targets, n - 1);
      var all, before := ItemsOf(list, items), AppendKind(entries, list, items, targets, n - 1);
      assert all[..n] == all[..n - 1] + [all[n - 1]];
      var x := items[list[n - 1]];
      forall y ensures Shows(before, y) ==> Shows(Append(before, x), y) {
        ShownStays(before, x, y);
      }
      ShownStays(before, x, x);
      AppendOne(before, x);
    }
  }

  lemma AppendOne(entries: seq<Item>, x: Item)
    ensures Append(entries, x) == entries || Append(entries, x) == entries + [x]
  {
  }

  /** and how often it adds an item without an address. */
  lemma {:induction false} WalkCounts(entries: seq<Item>, list: seq<Device>, items: map<Device, Item>, targets: bool, n: nat, x: Item)
    requires n <= |list| && x.address == ""
    ensures var r := AppendKind(entries, list, items, targets, n);
            var count := if x.reportTarget == targets then CountOf(list, items, n, x) else 0;
            && |entries| <= |r|
            && multiset(r)[x] <= multiset(entries)[x] + count
            && (|r| < 8 ==> multiset(r)[x] == multiset(entries)[x] + count)
  {
    hide Append;
    if n > 0 {
      WalkCounts(entries, list, items, targets, n - 1, x);
      var before := AppendKind(entries, list, items, targets, n - 1);
      if list[n - 1] in items {
        AppendOne(before, items[list[n - 1]]);
        ShownStays(before, items[list[n - 1]], x);
      }
    }
  }

  /** A listing says what it should of the devices on the list, whatever they are. */
  lemma ListingIsFaithful(list: seq<Device>, items: map<Device, Item>)
    requires forall i :: 0 <= i < |list| ==> list[i] in items
    ensures Faithful(Listing(list, items), ItemsOf(list, items))
  {
    hide Append, AppendKind, Shows;
    var n, all := |list|, ItemsOf(list, items);
    assert all[..n] == all;
    var targets, r := AppendKind([], list, items, true, n), Listing(list, items);
    WalkAdds([], list, items, true, n);
    WalkAdds(targets, list, items, false, n);
    forall x | x in all ensures |r| < 8 ==> Shows(r, x) {
      var j :| 0 <= j < |all| && all[j] == x;
      ShownLater(targets, r, x);
    }
    forall i, x | 0 <= i < |r| && !r[i].reportTarget && x in all && x.reportTarget ensures Shows(r, x) {
      var j :| 0 <= j < |all| && all[j] == x;
      FullIsFull(targets, list, items, n);
      ShownLater(targets, r, x);
    }
    forall x: Item | x.address == ""
      ensures multiset(r)[x] <= multiset(all)[x] && (|r| < 8 ==> multiset(r)[x] == multiset(all)[x])
    {
      WalkCounts([], list, items, true, n, x);
      WalkCounts(targets, list, items, false, n, x);
      CountIs(list, items, n, x);
    }
  }

  lemma ShownLater(entries: seq<Item>, more: seq<Item>, x: Item)
    requires entries <= more
    ensures Shows(entries, x) ==> Shows(more, x)
  {
    if Shows(entries, x) {
      var i :| 0 <= i < |entries| && (entries[i] == x || (x.address != "" && entries[i].address == x.address));
      assert more[i] == entries[i];
    }
  }

  lemma {:induction false} FullIsFull(entries: seq<Item>, list: seq<Device>, items: map<Device, Item>, n: nat)
    requires n <= |list|
    ensures |entries| >= 8 ==> AppendKind(entries, list, items, false, n) == entries
  {
    if n > 0 {
      FullIsFull(entries, list, items, n - 1);
    }
  }

  /** A listing shows nothing of devices that are not on the list. */
  lemma {:induction false} AppendKindFrame(entries: seq<Item>, list: seq<Device>, items: map<Device, Item>, more: map<Device, Item>, targets: bool, n: nat)
    requires n <= |list|
    requires forall i :: 0 <= i < |list| ==> (list[i] in items <==> list[i] in more) && (list[i] in items ==> items[list[i]] == more[list[i]])
    ensures AppendKind(entries, list, items, targets, n) == AppendKind(entries, list, more, targets, n)
  {
    hide Append;
    if n > 0 {
      AppendKindFrame(entries, list, items, more, targets, n - 1);
    }
  }

  lemma ListingFrame(list: seq<Device>, items: map<Device, Item>, d: Device, item: Item)
    requires d !in list
    ensures Listing(list, items[d := item]) == Listing(list, items)
  {
    AppendKindFrame([], list, items, items[d := item], true, |list|);
    AppendKindFrame(AppendKind([], list, items, true, |list|), list, items, items[d := item], false, |list|);
  }

  /** The two walks over the list that fill the output. */
  method GetDevices(list: seq<Device>, items: map<Device, Item>) returns (entries: seq<Item>)
    requires forall i :: 0 <= i < |list| ==> list[i] in items
    ensures entries == Listing(list, items) && Shown(entries) && Faithful(entries, ItemsOf(list, items))
  {
    hide Append, Faithful, Shown, Listing;
    ListingIsFaithful(list, items);
    ListingIs(list, items);
    entries := [];
    var n := 0;
    while n < |list| && |entries| < MAX_DEVICES
      invariant n <= |list| && entries == AppendKind([], list, items, true, n)
    {
      if items[list[n]].reportTarget {
        entries := Append(entries, items[list[n]]);
      }
      n := n + 1;
    }
    FullStays([], list, items, true, n, |list|);
    ghost var targets := entries;
    n := 0;
    while n < |list| && |entries| < MAX_DEVICES
      invariant n <= |list| && entries == AppendKind(targets, list, items, false, n)
    {
      if !items[list[n]].reportTarget {
        entries := Append(entries, items[list[n]]);
      }
      n := n + 1;
    }
    FullStays(targets, list, items, false, n, |list|);
    ListingLimits(list, items);
  }

  lemma ListingIs(list: seq<Device>, items: map<Device, Item>)
    ensures Listing(list, items) == AppendKind(AppendKind([], list, items, true, |list|), list, items, false, |list|)
  {
  }

  /** Once the output is full a walk may stop. */
  lemma {:induction false} FullStays(entries: seq<Item>, list: seq<Device>, items: map<Device, Item>, targets: bool, n: nat, m: nat)
    requires n <= m <= |list| && (|AppendKind(entries, list, items, targets, n)| >= MAX_DEVICES || n == |list|)
    ensures AppendKind(entries, list, items, targets, m) == AppendKind(entries, list, items, targets, n)
    decreases m
  {
    if n < m {
      FullStays(entries, list, items, targets, n, m - 1);
    }
  }

  // ---------------------------------------------------------------------------------------------
  // The protocol
  // ---------------------------------------------------------------------------------------------

  datatype Waiter = Waiter(id: nat, generation: nat)
  datatype Completion = Completion(waiter: Waiter, reported: nat)
  datatype Snapshot = Snapshot(generation: nat, entries: seq<Item>)

  /** `starting` are devices between the reading of their hardware ids and the update of the list;
      `owing` counts threads that must still notify; `draining` holds the generation each notifier
      advanced to; `inserting` are requests past their first check. The last four are history. */
  datatype FilterState = FilterState(
    generation: nat,
    list: seq<Device>,
    items: map<Device, Item>,
    starting: set<Device>,
    owing: nat,
    draining: multiset<nat>,
    inserting: map<nat, nat>,
    queue: seq<Waiter>,
    reading: Option<nat>,
    nextWaiter: nat,
    snapshots: seq<Snapshot>,
    completed: seq<Completion>,
    cancelled: set<nat>)

  const INIT := FilterState(1, [], map[], {}, 0, multiset{}, map[], [], None, 0, [], [], {})

  /** A device starts: its ids are read, outside any lock. Its stack does nothing else meanwhile. */
  function ReadProfile(s: FilterState, d: Device): FilterState {
    if d in s.starting then s
    else s.(items := if d in s.items then s.items else s.items[d := Item(false, "")], starting := s.starting + {d})
  }

  /** What was read is written field by field, cleared first, and a snapshot may see any state of it. */
  function WriteField(s: FilterState, d: Device, item: Item): FilterState {
    if d !in s.starting then s else s.(items := s.items[d := item])
  }

  function Membership(list: seq<Device>, d: Device, shouldList: bool): seq<Device> {
    if shouldList && d !in list then list + [d] else if !shouldList && d in list then Without(list, d) else list
  }

  /** The list follows the ids, under the mutex; the thread must notify if it changed or the device is listed. */
  function UpdateMembership(s: FilterState, d: Device): FilterState {
    if d !in s.starting || d !in s.items || s.reading.Some? then s
    else
      var list := Membership(s.list, d, Restricted(s.items[d]));
      s.(list := list, starting := s.starting - {d},
         owing := s.owing + if list != s.list || d in list then 1 else 0)
  }

  /** A device goes away. */
  function RemoveStack(s: FilterState, d: Device): FilterState {
    if d in s.starting || d !in s.list || s.reading.Some? then s
    else s.(list := Without(s.list, d), owing := s.owing + 1)
  }

  function Advance(s: FilterState): FilterState {
    if s.owing == 0 then s
    else s.(owing := s.owing - 1, generation := s.generation + 1, draining := s.draining + multiset{s.generation + 1})
  }

  /** A notifier completes the oldest waiter, or finds none and is done. */
  function Drain(s: FilterState, captured: nat): FilterState {
    if captured !in s.draining then s
    else if s.queue == [] then s.(draining := s.draining - multiset{captured})
    else s.(queue := s.queue[1..], completed := s.completed + [Completion(s.queue[0], captured)])
  }

  /** A wait request's first check. */
  function BeginWait(s: FilterState, generation: nat): FilterState {
    var w := Waiter(s.nextWaiter, generation);
    var next := s.(nextWaiter := s.nextWaiter + 1);
    if generation != s.generation then next.(completed := s.completed + [Completion(w, s.generation)])
    else next.(inserting := s.inserting[w.id := generation])
  }

  /** Its insertion, which checks again under the queue's lock. */
  function InsertWait(s: FilterState, id: nat): FilterState {
    if id !in s.inserting then s
    else
      var w := Waiter(id, s.inserting[id]);
      var next := s.(inserting := s.inserting - {id});
      if w.generation == s.generation then next.(queue := s.queue + [w])
      else next.(completed := s.completed + [Completion(w, s.generation)])
  }

  function RemoveWaiter(queue: seq<Waiter>, id: nat): seq<Waiter> {
    if queue == [] then [] else if queue[0].id == id then queue[1..] else [queue[0]] + RemoveWaiter(queue[1..], id)
  }

  function Cancel(s: FilterState, id: nat): FilterState {
    s.(queue := RemoveWaiter(s.queue, id), cancelled := s.cancelled + {id})
  }

  /** A snapshot takes the mutex and reads the generation, and then the list. */
  function BeginSnapshot(s: FilterState): FilterState {
    if s.reading.Some? then s else s.(reading := Some(s.generation))
  }

  function EndSnapshot(s: FilterState): FilterState {
    if s.reading.None? then s
    else s.(reading := None, snapshots := s.snapshots + [Snapshot(s.reading.value, Listing(s.list, s.items))])
  }

  datatype Step =
    | DoReadProfile(d: Device)
    | DoWriteField(d: Device, item: Item)
    | DoUpdate(d: Device)
    | DoRemove(d: Device)
    | DoAdvance
    | DoDrain(captured: nat)
    | DoBeginWait(generation: nat)
    | DoInsertWait(id: nat)
    | DoCancel(id: nat)
    | DoBeginSnapshot
    | DoEndSnapshot

  function Next(s: FilterState, step: Step): FilterState {
    match step
    case DoReadProfile(d) => ReadProfile(s, d)
    case DoWriteField(d, item) => WriteField(s, d, item)
    case DoUpdate(d) => UpdateMembership(s, d)
    case DoRemove(d) => RemoveStack(s, d)
    case DoAdvance => Advance(s)
    case DoDrain(captured) => Drain(s, captured)
    case DoBeginWait(generation) => BeginWait(s, generation)
    case DoInsertWait(id) => InsertWait(s, id)
    case DoCancel(id) => Cancel(s, id)
    case DoBeginSnapshot => BeginSnapshot(s)
    case DoEndSnapshot => EndSnapshot(s)
  }

  function Run(steps: seq<Step>): FilterState {
    if steps == [] then INIT else Next(Run(steps[..|steps| - 1]), steps[|steps| - 1])
  }

  // ---------------------------------------------------------------------------------------------
  // Invariants
  // ---------------------------------------------------------------------------------------------

  /** A change of what a listing shows that has not been announced yet. */
  ghost predicate ChangePending(s: FilterState) {
    s.owing > 0 || exists d :: d in s.starting && d in s.list
  }

  ghost predicate Listed(s: FilterState) {
    && Distinct(s.list)
    && (forall d :: d in s.list ==> d in s.items)
    && (forall d :: d in s.starting ==> d in s.items)
  }

  /** A snapshot shows the list as it is, or its generation is past, or someone will advance it. */
  ghost predicate SnapshotsGood(s: FilterState) {
    && (forall i :: 0 <= i < |s.snapshots| ==>
          && s.snapshots[i].generation <= s.generation
          && (s.snapshots[i].entries == Listing(s.list, s.items) || s.snapshots[i].generation < s.generation || ChangePending(s)))
    && (s.reading.Some? ==> s.reading.value <= s.generation)
  }

  /** Only while the notifier that made the current generation drains can a waiter of an earlier one be
      queued. */
  ghost predicate WaitersCurrent(s: FilterState) {
    && (forall i :: 0 <= i < |s.queue| ==> s.queue[i].generation <= s.generation)
    && (s.generation !in s.draining ==> forall i :: 0 <= i < |s.queue| ==> s.queue[i].generation == s.generation)
    && (forall g :: g in s.draining ==> g <= s.generation)
  }

  /** Requests are numbered, and none is in two places. */
  ghost predicate OncePerRequest(s: FilterState) {
    && (forall id :: id in s.inserting ==> id < s.nextWaiter)
    && (forall i :: 0 <= i < |s.queue| ==> s.queue[i].id < s.nextWaiter && s.queue[i].id !in s.inserting)
    && (forall i :: 0 <= i < |s.completed| ==> s.completed[i].waiter.id < s.nextWaiter && s.completed[i].waiter.id !in s.inserting)
    && (forall i, j :: 0 <= i < j < |s.queue| ==> s.queue[i].id != s.queue[j].id)
    && (forall i, j :: 0 <= i < j < |s.completed| ==> s.completed[i].waiter.id != s.completed[j].waiter.id)
    && (forall i, j :: 0 <= i < |s.queue| && 0 <= j < |s.completed| ==> s.queue[i].id != s.completed[j].waiter.id)
  }

  ghost predicate Inv(s: FilterState) {
    Listed(s) && SnapshotsGood(s) && WaitersCurrent(s) && OncePerRequest(s)
  }

  lemma {:induction false} RemovedWaiter(queue: seq<Waiter>, id: nat)
    requires forall i, j :: 0 <= i < j < |queue| ==> queue[i].id != queue[j].id
    ensures var r := RemoveWaiter(queue, id);
            && (forall i, j :: 0 <= i < j < |r| ==> r[i].id != r[j].id)
            && (forall w :: w in r <==> w in queue && w.id != id)
    decreases |queue|
  {
    if queue != [] && queue[0].id != id {
      RemovedWaiter(queue[1..], id);
      var rest := RemoveWaiter(queue[1..], id);
      forall j | 0 <= j < |rest| ensures rest[j].id != queue[0].id {
        assert rest[j] in queue[1..];
      }
    }
  }

  lemma NextKeepsListed(s: FilterState, step: Step)
    requires Listed(s)
    ensures Listed(Next(s, step))
  {
    hide Listing, Listed, ReadProfile, WriteField, UpdateMembership, RemoveStack, Advance, Drain, BeginWait, InsertWait, Cancel,
         BeginSnapshot, EndSnapshot;
    match step
    case DoReadProfile(d) => ReadKeepsListed(s, d, Item(false, ""));
    case DoWriteField(d, item) => ReadKeepsListed(s, d, item);
    case DoUpdate(d) => UpdateKeepsListed(s, d);
    case DoRemove(d) => RemoveKeepsListed(s, d);
    case _ =>
      NextIsAside(s, step);
      ListedAside(s, Next(s, step));
  }

  ghost predicate SameDevices(s: FilterState, t: FilterState) {
    t.list == s.list && t.items == s.items && t.starting == s.starting
  }

  lemma NextIsAside(s: FilterState, step: Step)
    requires !(step.DoReadProfile? || step.DoWriteField? || step.DoUpdate? || step.DoRemove?)
    ensures SameDevices(s, Next(s, step))
  {
    hide SameDevices, Advance, Drain, BeginWait, InsertWait, Cancel, BeginSnapshot, EndSnapshot;
    match step
    case DoAdvance => NotifierAside(s, 0);
    case DoDrain(captured) => NotifierAside(s, captured);
    case DoBeginWait(generation) => BeginAside(s, generation);
    case DoInsertWait(id) => InsertAside(s, id);
    case DoCancel(id) => CancelAside(s, id);
    case DoBeginSnapshot => SnapshotAside(s);
    case DoEndSnapshot => SnapshotAside(s);
  }

  lemma NotifierAside(s: FilterState, captured: nat)
    ensures SameDevices(s, Advance(s)) && SameDevices(s, Drain(s, captured))
  {
  }

  lemma BeginAside(s: FilterState, generation: nat)
    ensures SameDevices(s, BeginWait(s, generation))
  {
  }

  lemma InsertAside(s: FilterState, id: nat)
    ensures SameDevices(s, InsertWait(s, id))
  {
  }

  lemma CancelAside(s: FilterState, id: nat)
    ensures SameDevices(s, Cancel(s, id))
  {
    hide RemoveWaiter;
  }

  lemma SnapshotAside(s: FilterState)
    ensures SameDevices(s, BeginSnapshot(s)) && SameDevices(s, EndSnapshot(s))
  {
    hide Listing;
  }

  lemma ListedAside(s: FilterState, t: FilterState)
    requires Listed(s) && SameDevices(s, t)
    ensures Listed(t)
  {
  }

  lemma ReadKeepsListed(s: FilterState, d: Device, item: Item)
    requires Listed(s)
    ensures Listed(ReadProfile(s, d)) && Listed(WriteField(s, d, item))
  {
  }

  lemma UpdateKeepsListed(s: FilterState, d: Device)
    requires Listed(s)
    ensures Listed(UpdateMembership(s, d))
  {
    hide Without;
    WithoutMembers(s.list, d);
  }

  lemma RemoveKeepsListed(s: FilterState, d: Device)
    requires Listed(s)
    ensures Listed(RemoveStack(s, d))
  {
    hide Without;
    WithoutMembers(s.list, d);
  }

  lemma NextKeepsSnapshots(s: FilterState, step: Step)
    requires Listed(s) && SnapshotsGood(s)
    ensures SnapshotsGood(Next(s, step))
  {
    hide Listing, RemoveWaiter;
    match step
    case DoReadProfile(d) =>
      if d !in s.list {
        ListingFrame(s.list, s.items, d, Item(false, ""));
      }
    case DoWriteField(d, item) =>
      if d !in s.list {
        ListingFrame(s.list, s.items, d, item);
      }
    case DoUpdate(d) => WithoutMembers(s.list, d);
    case _ =>
  }

  lemma DrainKeepsWaiters(s: FilterState, captured: nat)
    requires WaitersCurrent(s)
    ensures WaitersCurrent(Drain(s, captured))
  {
    if captured in s.draining && s.queue == [] {
      assert forall g :: g in s.draining - multiset{captured} ==> g in s.draining;
    }
  }

  lemma AdvanceKeepsWaiters(s: FilterState)
    requires WaitersCurrent(s)
    ensures WaitersCurrent(Advance(s))
  {
    if s.owing > 0 {
      assert s.generation + 1 in Advance(s).draining;
    }
  }

  lemma NextKeepsWaiters(s: FilterState, step: Step)
    requires WaitersCurrent(s) && OncePerRequest(s)
    ensures WaitersCurrent(Next(s, step))
  {
    hide Listing, Without;
    match step
    case DoCancel(id) =>
      hide Cancel;
      CancelKeepsWaiters(s, id);
    case DoDrain(captured) =>
      hide Drain;
      DrainKeepsWaiters(s, captured);
    case DoAdvance =>
      hide Advance;
      AdvanceKeepsWaiters(s);
    case _ =>
      hide OncePerRequest;
  }

  lemma CancelKeepsWaiters(s: FilterState, id: nat)
    requires WaitersCurrent(s) && OncePerRequest(s)
    ensures WaitersCurrent(Cancel(s, id)) && OncePerRequest(Cancel(s, id))
  {
    RemovedWaiter(s.queue, id);
    var q := RemoveWaiter(s.queue, id);
    assert forall i :: 0 <= i < |q| ==> q[i] in s.queue;
  }

  lemma NextKeepsOnce(s: FilterState, step: Step)
    requires WaitersCurrent(s) && OncePerRequest(s)
    ensures OncePerRequest(Next(s, step))
  {
    hide Listing, Without, OncePerRequest;
    match step
    case DoCancel(id) => CancelKeepsWaiters(s, id);
    case DoDrain(captured) => DrainKeepsOnce(s, captured);
    case DoBeginWait(generation) => BeginKeepsOnce(s, generation);
    case DoInsertWait(id) => InsertKeepsOnce(s, id);
    case DoReadProfile(_) => OnceAside(s, Next(s, step));
    case DoWriteField(_, _) => OnceAside(s, Next(s, step));
    case DoUpdate(_) => OnceAside(s, Next(s, step));
    case DoRemove(_) => OnceAside(s, Next(s, step));
    case DoAdvance => OnceAside(s, Next(s, step));
    case DoBeginSnapshot => OnceAside(s, Next(s, step));
    case DoEndSnapshot => OnceAside(s, Next(s, step));
  }

  lemma OnceAside(s: FilterState, t: FilterState)
    requires OncePerRequest(s) && t.nextWaiter == s.nextWaiter && t.inserting == s.inserting
    requires t.queue == s.queue && t.completed == s.completed
    ensures OncePerRequest(t)
  {
  }

  lemma DrainKeepsOnce(s: FilterState, captured: nat)
    requires OncePerRequest(s)
    ensures OncePerRequest(Drain(s, captured))
  {
  }

  lemma BeginKeepsOnce(s: FilterState, generation: nat)
    requires OncePerRequest(s)
    ensures OncePerRequest(BeginWait(s, generation))
  {
  }

  lemma InsertKeepsOnce(s: FilterState, id: nat)
    requires OncePerRequest(s)
    ensures OncePerRequest(InsertWait(s, id))
  {
  }

  lemma NextKeepsInv(s: FilterState, step: Step)
    requires Inv(s)
    ensures Inv(Next(s, step))
  {
    hide Next, Listed, SnapshotsGood, WaitersCurrent, OncePerRequest;
    NextKeepsListed(s, step);
    NextKeepsSnapshots(s, step);
    NextKeepsWaiters(s, step);
    NextKeepsOnce(s, step);
  }

  lemma {:induction false} RunKeepsInv(steps: seq<Step>)
    ensures Inv(Run(steps))
  {
    if steps != [] {
      hide Inv, Next;
      RunKeepsInv(steps[..|steps| - 1]);
      NextKeepsInv(Run(steps[..|steps| - 1]), steps[|steps| - 1]);
    }
  }

  // ---------------------------------------------------------------------------------------------
  // What every interleaving guarantees
  // ---------------------------------------------------------------------------------------------

  ghost predicate Queued(s: FilterState, id: nat) {
    exists i :: 0 <= i < |s.queue| && s.queue[i].id == id
  }

  ghost predicate Completed(s: FilterState, id: nat) {
    exists i :: 0 <= i < |s.completed| && s.completed[i].waiter.id == id
  }

  ghost predicate Kept(s: FilterState, id: nat) {
    id in s.inserting || Queued(s, id) || Completed(s, id) || id in s.cancelled
  }

  lemma {:induction false} OthersStay(queue: seq<Waiter>, id: nat, i: nat)
    requires i < |queue| && queue[i].id != id
    ensures queue[i] in RemoveWaiter(queue, id)
  {
    if queue[0].id != id && i > 0 {
      OthersStay(queue[1..], id, i - 1);
    }
  }

  lemma NextKeeps(s: FilterState, step: Step, id: nat)
    requires Kept(s, id)
    ensures Kept(Next(s, step), id)
  {
    hide Listing, RemoveWaiter, Without;
    var t := Next(s, step);
    if id in s.inserting {
      if t != s && step.DoInsertWait? && step.id == id {
        assert s.inserting[id] == s.generation ==> t.queue[|s.queue|].id == id;
        assert s.inserting[id] != s.generation ==> t.completed[|s.completed|].waiter.id == id;
      }
    } else if Queued(s, id) {
      var i :| 0 <= i < |s.queue| && s.queue[i].id == id;
      if step.DoCancel? && step.id != id {
        OthersStay(s.queue, step.id, i);
        var j :| 0 <= j < |t.queue| && t.queue[j] == s.queue[i];
      } else if step.DoDrain? && i == 0 {
        assert t == s || t.completed[|s.completed|].waiter.id == id;
      } else if step.DoDrain? {
        assert t == s || t.queue[i - 1].id == id;
      } else if !step.DoCancel? {
        assert t.queue[i].id == id;
      }
    } else if Completed(s, id) {
      var i :| 0 <= i < |s.completed| && s.completed[i].waiter.id == id;
      assert t.completed[i].waiter.id == id;
    }
  }

  /** No wait request vanishes: in every reachable state each is being inserted, waits, was completed, or
      was cancelled. */
  lemma {:induction false} NoneVanishes(steps: seq<Step>, id: nat)
    requires id < Run(steps).nextWaiter
    ensures Kept(Run(steps), id)
  {
    if steps != [] {
      var before, last := Run(steps[..|steps| - 1]), steps[|steps| - 1];
      if id < before.nextWaiter {
        NoneVanishes(steps[..|steps| - 1], id);
        NextKeeps(before, last, id);
      } else {
        NewIsKept(before, last, id);
      }
    }
  }

  lemma NewIsKept(s: FilterState, step: Step, id: nat)
    requires s.nextWaiter <= id < Next(s, step).nextWaiter
    ensures Kept(Next(s, step), id)
  {
    hide Listing, RemoveWaiter, Without;
    var t := Next(s, step);
    assert step.DoBeginWait? && id == s.nextWaiter;
    if step.generation != s.generation {
      assert t.completed[|s.completed|].waiter.id == id;
    }
  }

  /** A snapshot is what is listed when it is taken, with the generation read before that. */
  lemma SnapshotIsTaken(s: FilterState, t: FilterState)
    requires s.reading.None? && t.reading == Next(s, DoBeginSnapshot).reading
    ensures var u := Next(t, DoEndSnapshot);
            && u.reading.None? && |u.snapshots| == |t.snapshots| + 1
            && u.snapshots[|t.snapshots|] == Snapshot(s.generation, Listing(t.list, t.items))
  {
    hide Listing;
  }

  /** Unless the notifier that made the current generation is still draining, every queued waiter carries
      that generation, whatever older notifiers do. */
  lemma QueuedAreCurrent(steps: seq<Step>, i: nat)
    requires Run(steps).generation !in Run(steps).draining && i < |Run(steps).queue|
    ensures Run(steps).queue[i].generation == Run(steps).generation
  {
    RunKeepsInv(steps);
  }

  /** If the listing differs from a snapshot's, the generation is past the snapshot's or a notifier is
      still to come. */
  lemma ChangeIsAnnounced(steps: seq<Step>, i: nat)
    requires i < |Run(steps).snapshots| && Run(steps).snapshots[i].entries != Listing(Run(steps).list, Run(steps).items)
    ensures Run(steps).snapshots[i].generation < Run(steps).generation || ChangePending(Run(steps))
  {
    RunKeepsInv(steps);
  }

  /** No change is missed: with none to announce and the notifier of the current generation done, whoever
      waits with the generation of a snapshot has seen the list as it is. */
  lemma NoLostNotification(steps: seq<Step>, i: nat, j: nat)
    requires var s := Run(steps);
             && s.generation !in s.draining && !ChangePending(s)
             && i < |s.queue| && j < |s.snapshots| && s.queue[i].generation == s.snapshots[j].generation
    ensures Run(steps).snapshots[j].entries == Listing(Run(steps).list, Run(steps).items)
  {
    RunKeepsInv(steps);
  }

  /** Then, if the snapshot had room, it shows each device that is listed. */
  lemma WaiterHasSeen(steps: seq<Step>, i: nat, j: nat, d: Device)
    requires var s := Run(steps);
             && s.generation !in s.draining && !ChangePending(s)
             && i < |s.queue| && j < |s.snapshots| && s.queue[i].generation == s.snapshots[j].generation
             && |s.snapshots[j].entries| < 8 && d in s.list
    ensures d in Run(steps).items && Shows(Run(steps).snapshots[j].entries, Run(steps).items[d])
  {
    RunKeepsInv(steps);
    NoLostNotification(steps, i, j);
    hide Run, Shows, SnapshotsGood, WaitersCurrent, OncePerRequest, Listing;
    var s := Run(steps);
    ListingIsFaithful(s.list, s.items);
    var k :| 0 <= k < |s.list| && s.list[k] == d;
    assert ItemsOf(s.list, s.items)[k] == s.items[d];
  }

  /** No request is completed twice, or completed while it waits. */
  lemma CompletedOnce(steps: seq<Step>)
    ensures OncePerRequest(Run(steps))
  {
    RunKeepsInv(steps);
  }

  /** When a notifier tells a waiter of an earlier generation than its own. The notifier that made the
      current generation never does; once that one is done, every notifier still draining does so with
      every waiter. */
  lemma BehindOnlyIfOvertaken(steps: seq<Step>, captured: nat)
    requires captured in Run(steps).draining && Run(steps).queue != []
    ensures var s := Run(steps);
            var t := Next(s, DoDrain(captured));
            && |t.completed| == |s.completed| + 1
            && var c := t.completed[|s.completed|];
            && c.waiter == s.queue[0]
            && c.reported == captured
            && (captured == s.generation ==> c.waiter.generation <= c.reported)
            && (s.generation !in s.draining ==> c.reported < c.waiter.generation == s.generation)
  {
    RunKeepsInv(steps);
  }

  /** A device with a report target starts and is announced. */
  function Announce(s: FilterState, d: Device): FilterState {
    Next(Next(Next(Next(s, DoReadProfile(d)), DoWriteField(d, Item(true, "a"))), DoUpdate(d)), DoAdvance)
  }

  lemma AnnounceIs(s: FilterState, d: Device)
    requires d !in s.items && d !in s.starting && d !in s.list && s.owing == 0 && s.reading.None?
    ensures Announce(s, d)
         == s.(items := s.items[d := Item(true, "a")], list := s.list + [d], generation := s.generation + 1,
               draining := s.draining + multiset{s.generation + 1})
  {
    var read := Next(Next(s, DoReadProfile(d)), DoWriteField(d, Item(true, "a")));
    assert read == s.(items := s.items[d := Item(true, "a")], starting := s.starting + {d});
    hide ReadProfile, WriteField, Listing;
    var updated := Next(read, DoUpdate(d));
    assert updated == s.(items := s.items[d := Item(true, "a")], list := s.list + [d], owing := 1);
  }

  /** It happens with a single notifier at work: the one of generation 2 is overtaken by that of 3, which
      finds no waiter and is done; then a waiter of generation 3 is told 2, a change it already knows. */
  lemma SlowNotifierReportsThePast()
    ensures var second := Announce(Announce(INIT, 0), 1);
            var waiting := Next(Next(Next(second, DoDrain(3)), DoBeginWait(3)), DoInsertWait(0));
            && waiting.queue == [Waiter(0, 3)] && waiting.draining == multiset{2}
            && Next(waiting, DoDrain(2)).completed == [Completion(Waiter(0, 3), 2)]
  {
    hide Announce, Listing;
    AnnounceIs(INIT, 0);
    AnnounceIs(Announce(INIT, 0), 1);
    assert multiset{2} + multiset{3} == multiset{2, 3};
    OvertakenReportsThePast(Announce(Announce(INIT, 0), 1));
  }

  lemma OvertakenReportsThePast(s: FilterState)
    requires s.generation == 3 && s.draining == multiset{2, 3}
    requires s.queue == [] && s.completed == [] && s.nextWaiter == 0 && s.inserting == map[]
    ensures var t := Next(Next(Next(s, DoDrain(3)), DoBeginWait(3)), DoInsertWait(0));
            && t.queue == [Waiter(0, 3)] && t.draining == multiset{2}
            && Next(t, DoDrain(2)).completed == [Completion(Waiter(0, 3), 2)]
  {
    assert Next(s, DoDrain(3)).draining == multiset{2};
  }

  // ---------------------------------------------------------------------------------------------
  // The driver's lock regions
  // ---------------------------------------------------------------------------------------------

  class VdsFilter {
    var deviceGeneration: nat
    var deviceList: seq<Device>
    var deviceItems: map<Device, Item>
    var waitIrps: seq<Waiter>
    ghost var model: FilterState

    ghost predicate Valid()
      reads this
    {
      && deviceGeneration == model.generation && deviceList == model.list && deviceItems == model.items
      && waitIrps == model.queue && Inv(model)
    }

    constructor ()
      ensures Valid() && model == INIT
    {
      deviceGeneration, deviceList, deviceItems, waitIrps, model := 1, [], map[], [], INIT;
    }

    /** The insertion of a wait request that passed its first check. */
    method WaitQueueInsertIrpEx(id: nat, generation: nat) returns (inserted: bool)
      requires Valid() && id in model.inserting && model.inserting[id] == generation
      modifies this
      ensures Valid() && model == InsertWait(old(model), id)
      ensures inserted <==> generation == deviceGeneration
      ensures waitIrps == if inserted then old(waitIrps) + [Waiter(id, generation)] else old(waitIrps)
    {
      hide Inv;
      NextKeepsInv(model, DoInsertWait(id));
      inserted := generation == deviceGeneration;
      if inserted {
        waitIrps := waitIrps + [Waiter(id, generation)];
      }
      model := InsertWait(model, id);
    }

    /** The first half of a notification. */
    method AdvanceGeneration() returns (generation: nat)
      requires Valid() && model.owing > 0
      modifies this
      ensures Valid() && model == Advance(old(model)) && generation == deviceGeneration == old(deviceGeneration) + 1
    {
      hide Inv;
      NextKeepsInv(model, DoAdvance);
      deviceGeneration := deviceGeneration + 1;
      generation := deviceGeneration;
      model := Advance(model);
    }

    /** One round of its second half. */
    method CompleteNextWaiter(generation: nat) returns (waiter: Option<Waiter>)
      requires Valid() && generation in model.draining
      modifies this
      ensures Valid() && model == Drain(old(model), generation)
      ensures waiter == if old(waitIrps) == [] then None else Some(old(waitIrps)[0])
      ensures waitIrps == if waiter.None? then [] else old(waitIrps)[1..]
    {
      hide Inv;
      NextKeepsInv(model, DoDrain(generation));
      waiter := None;
      if waitIrps != [] {
        waiter := Some(waitIrps[0]);
        waitIrps := waitIrps[1..];
      }
      model := Drain(model, generation);
    }

    /** The list follows a device's ids. */
    method UpdateDeviceListMembership(d: Device) returns (changed: bool)
      requires Valid() && d in model.starting && d in deviceItems && model.reading.None?
      modifies this
      ensures Valid() && model == UpdateMembership(old(model), d)
      ensures changed <==> deviceList != old(deviceList)
      ensures d in deviceList <==> deviceItems[d].reportTarget || deviceItems[d].address != ""
      ensures forall x :: x != d ==> (x in deviceList <==> x in old(deviceList))
      ensures deviceItems == old(deviceItems) && deviceGeneration == old(deviceGeneration)
      ensures model.owing == old(model).owing + if changed || d in deviceList then 1 else 0
    {
      assert Distinct(deviceList);
      hide Inv, Without;
      NextKeepsInv(model, DoUpdate(d));
      var shouldList := Restricted(deviceItems[d]);
      changed := shouldList != (d in deviceList);
      WithoutMembers(deviceList, d);
      if changed {
        deviceList := if shouldList then deviceList + [d] else Without(deviceList, d);
      }
      model := UpdateMembership(model, d);
    }
  }
}
