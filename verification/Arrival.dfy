/** Arriving notifications: what `dbus_cb_Notify` needs of the client's id, and why the
    invariant survives replacement and stacking. */
module Arrival {
  import opened Notifications
  import opened SortedQueue
  import opened QueueSpec
  import opened Conservation

  /** A freshly decoded notification. */
  ghost predicate Fresh(n: Note) {
    && n.dbusValid == n.fromBus
    && !n.redisplayed
    && (!n.dbusValid ==> n.actions == {})
  }

  /** The client either asks for no id, or for one that was handed out before and is not
      sitting in history. */
  ghost predicate IdIsSafe(q: Queues, id: int) {
    id == 0 || (0 < id <= q.nextId && IndexOfId(q.history, id) == |q.history|)
  }

  function TakenOutOf(q: Queues, s: Slot): Queues
    requires SlotOf(q, s) && !s.NoSlot?
  {
    match s
    case InDisplayed(i) => q.(displayed := RemoveAt(q.displayed, i))
    case InWaiting(i) => q.(waiting := RemoveAt(q.waiting, i))
  }

  lemma TakeSlotCounts(q: Queues, s: Slot, n: Note, dupCount: int, now: int, p: Label, x: int)
    requires SlotOf(q, s) && !s.NoSlot?
    ensures Live(p, x, TakeSlot(q, s, n, dupCount, now)) == Live(p, x, q) - One(p, x, NoteIn(q, s)) + One(p, x, n)
    ensures Live(p, x, TakenOutOf(q, s)) == Live(p, x, q) - One(p, x, NoteIn(q, s))
  {
    var n' := n.(dupCount := dupCount);
    match s
    case InDisplayed(i) =>
      CountSplit(p, x, q.displayed, i);
      CountSplit(p, x, q.displayed[i := n'.(start := now)], i);
      assert RemoveAt(q.displayed, i) == RemoveAt(q.displayed[i := n'.(start := now)], i);
    case InWaiting(i) =>
      CountSplit(p, x, q.waiting, i);
      CountSplit(p, x, q.waiting[i := n'], i);
      assert RemoveAt(q.waiting, i) == RemoveAt(q.waiting[i := n'], i);
  }

  /** Giving a slot to `n` adds `n` and drops the former holder under an equal label. */
  lemma ReplacementAdds(q: Queues, r: Queues, s: Slot, n: Note, dupCount: int, now: int, held: Note, log: seq<Event>,
                         cause: Cause)
    requires SlotOf(q, s) && !s.NoSlot?
    requires held.key == NoteIn(q, s).key && held.id == NoteIn(q, s).id
    requires r == Drop(TakeSlot(q.(log := log), s, n, dupCount, now), held, cause)
    ensures forall p, x :: All(p, x, r) == All(p, x, q) + One(p, x, n)
    ensures forall p, x :: Live(p, x, r) == Live(p, x, q) - One(p, x, held) + One(p, x, n)
  {
    forall p, x
      ensures All(p, x, r) == All(p, x, q) + One(p, x, n)
      ensures Live(p, x, r) == Live(p, x, q) - One(p, x, held) + One(p, x, n)
    {
      TakeSlotCounts(q.(log := log), s, n, dupCount, now, p, x);
      CountDrop(p, x, q.dropped, Dropped(held, cause));
    }
  }

  /** Everything agrees with the bus after a slot changed hands, when it did without the old holder. */
  lemma ReplacementAgrees(q: Queues, s: Slot, n: Note, dupCount: int, now: int, held: Note, cause: Cause)
    requires SlotOf(q, s) && !s.NoSlot? && (cause == Replaced || !held.dbusValid)
    requires SignalsAgree(TakenOutOf(q, s)) && FlagAgrees(q.log, n) && FlagAgrees(q.log, held)
    ensures SignalsAgree(Drop(TakeSlot(q, s, n, dupCount, now), held, cause))
  {
    var n' := n.(dupCount := dupCount);
    match s
    case InDisplayed(i) =>
      var r := q.displayed[i := n'.(start := now)];
      assert forall m | m in r :: m == n'.(start := now) || m in RemoveAt(q.displayed, i);
    case InWaiting(i) =>
      var r := q.waiting[i := n'];
      assert forall m | m in r :: m == n' || m in RemoveAt(q.waiting, i);
  }

  lemma HolderAgrees(q: Queues, s: Slot)
    requires SlotOf(q, s) && !s.NoSlot? && SignalsAgree(q)
    ensures FlagAgrees(q.log, NoteIn(q, s)) && SignalsAgree(TakenOutOf(q, s))
  {
    match s
    case InDisplayed(i) => assert q.displayed[i] in q.displayed;
    case InWaiting(i) => assert q.waiting[i] in q.waiting;
  }

  lemma ReplaceInAgrees(q: Queues, s: Slot, n: Note, now: int)
    requires SlotOf(q, s) && !s.NoSlot?
    requires SignalsAgree(q) && FlagAgrees(q.log, n)
    ensures SignalsAgree(ReplaceIn(q, s, n, now))
  {
    HolderAgrees(q, s);
    ReplacementAgrees(q, s, n, NoteIn(q, s).dupCount, now, NoteIn(q, s), Replaced);
  }

  lemma OthersAbsent(q: Queues, s: Slot)
    requires SlotOf(q, s) && !s.NoSlot?
    requires All(Key, NoteIn(q, s).key, q) <= 1
    ensures Absent(TakenOutOf(q, s), NoteIn(q, s).key)
  {
    var held := NoteIn(q, s);
    TakeSlotCounts(q, s, held, 0, 0, Key, held.key);
    CountedAbsent(TakenOutOf(q, s), held.key);
  }

  lemma StackInAgrees(q: Queues, s: Slot, n: Note, dupCount: int, now: int)
    requires SlotOf(q, s) && !s.NoSlot?
    requires SignalsAgree(q) && FlagAgrees(q.log, n)
    requires All(Key, NoteIn(q, s).key, q) <= 1
    requires n.key != NoteIn(q, s).key && NoteIn(q, s).key < q.born
    ensures SignalsAgree(StackIn(q, s, n, dupCount, now))
  {
    var held, rest := NoteIn(q, s), TakenOutOf(q, s);
    HolderAgrees(q, s);
    OthersAbsent(q, s);
    SignalOther(rest, held, REASON_TIME);
    var log := LogClosed(q.log, held, REASON_TIME);
    if held.dbusValid {
      FlagSurvives(q.log, Closed(held.key, held.id, ReasonOnBus(REASON_TIME)), n);
    }
    ReplacementAgrees(q.(log := log), s, n, dupCount, now, Signalled(held), Stacked);
  }

  lemma NotYetKnown(q: Queues, n: Note)
    requires Sound(q) && n.key == q.born && Fresh(n)
    ensures FlagAgrees(q.log, n)
    ensures Absent(q, n.key)
  {
    assert All(Key, n.key, q) == 0;
    CountedAbsent(q, n.key);
  }

  /** What `Place` must achieve, apart from ids. */
  ghost predicate Placed(q: Queues, n: Note, r: Queues) {
    && SignalsAgree(r)
    && r.born == q.born + 1
    && (forall x :: All(Key, x, r) == All(Key, x, q) + One(Key, x, n))
  }

  lemma PlacedEachOnce(q: Queues, n: Note, r: Queues)
    requires EachObjectOnce(q) && n.key == q.born && Placed(q, n, r)
    ensures EachObjectOnce(r)
  {
    forall k ensures All(Key, k, r) == (if 0 <= k < r.born then 1 else 0) {
      assert All(Key, k, r) == All(Key, k, q) + One(Key, k, n);
    }
  }

  lemma SlotHolder(q: Queues, s: Slot)
    requires Sound(q) && SlotOf(q, s) && !s.NoSlot?
    ensures NoteIn(q, s).key < q.born
    ensures IdsDistinct(q) ==> 0 < NoteIn(q, s).id <= q.nextId && Live(Id, NoteIn(q, s).id, q) == 1
  {
    var n := NoteIn(q, s);
    TakeSlotCounts(q, s, n, 0, 0, Key, n.key);
    TakeSlotCounts(q, s, n, 0, 0, Id, n.id);
    assert All(Key, n.key, q) >= 1;
    assert Live(Id, n.id, q) >= 1;
  }

  lemma EnqueuePlaced(cfg: Settings, q: Queues, n: Note, nextId: int)
    requires Sound(q) && n.key == q.born && Fresh(n) && nextId >= q.nextId
    ensures var r := q.(born := q.born + 1, nextId := nextId, waiting := InsertSorted(cfg, q.waiting, n));
            Placed(q, n, r) && forall x :: Live(Id, x, r) == Live(Id, x, q) + One(Id, x, n)
  {
    var r := q.(born := q.born + 1, nextId := nextId, waiting := InsertSorted(cfg, q.waiting, n));
    NotYetKnown(q, n);
    InsertMembers(cfg, q.waiting, n);
    forall p, x ensures Live(p, x, r) == Live(p, x, q) + One(p, x, n) {
      CountInsert(p, x, cfg, q.waiting, n);
    }
  }

  lemma ReplacePlaced(q: Queues, s: Slot, n: Note, now: int)
    requires Sound(q) && n.key == q.born && Fresh(n) && SlotOf(q, s) && !s.NoSlot?
    ensures var r := ReplaceIn(q.(born := q.born + 1), s, n, now);
            && Placed(q, n, r)
            && forall x :: Live(Id, x, r) == Live(Id, x, q) - One(Id, x, NoteIn(q, s)) + One(Id, x, n)
  {
    var q' := q.(born := q.born + 1);
    NotYetKnown(q, n);
    ReplaceInAgrees(q', s, n, now);
    ReplacementAdds(q', ReplaceIn(q', s, n, now), s, n, NoteIn(q, s).dupCount, now, NoteIn(q, s), q.log, Replaced);
    forall x ensures All(Key, x, ReplaceIn(q', s, n, now)) == All(Key, x, q) + One(Key, x, n)
             ensures Live(Id, x, ReplaceIn(q', s, n, now))
                     == Live(Id, x, q) - One(Id, x, NoteIn(q, s)) + One(Id, x, n) {
      assert All(Key, x, q') == All(Key, x, q) && Live(Id, x, q') == Live(Id, x, q);
    }
  }

  lemma StackPlaced(q: Queues, s: Slot, n: Note, dupCount: int, now: int, nextId: int)
    requires Sound(q) && n.key == q.born && Fresh(n) && SlotOf(q, s) && !s.NoSlot? && nextId >= q.nextId
    ensures var r := StackIn(q.(born := q.born + 1, nextId := nextId), s, n, dupCount, now);
            && Placed(q, n, r)
            && forall x :: Live(Id, x, r) == Live(Id, x, q) - One(Id, x, NoteIn(q, s)) + One(Id, x, n)
  {
    var q' := q.(born := q.born + 1, nextId := nextId);
    var held, r := NoteIn(q, s), StackIn(q', s, n, dupCount, now);
    NotYetKnown(q, n);
    SlotHolder(q, s);
    assert All(Key, held.key, q') == All(Key, held.key, q);
    StackInAgrees(q', s, n, dupCount, now);
    ReplacementAdds(q', r, s, n, dupCount, now, Signalled(held), LogClosed(q.log, held, REASON_TIME), Stacked);
    forall x ensures All(Key, x, r) == All(Key, x, q) + One(Key, x, n)
             ensures Live(Id, x, r) == Live(Id, x, q) - One(Id, x, held) + One(Id, x, n) {
      assert All(Key, x, q') == All(Key, x, q) && Live(Id, x, q') == Live(Id, x, q);
    }
  }

  lemma SortedPlaced(cfg: Settings, q: Queues, n: Note, r: Queues)
    requires Placed(q, n, r)
    ensures Placed(q, n, r.(displayed := StableSort(cfg, r.displayed)))
    ensures forall x :: Live(Id, x, r.(displayed := StableSort(cfg, r.displayed))) == Live(Id, x, r)
  {
    var t := r.(displayed := StableSort(cfg, r.displayed));
    SortMembers(cfg, r.displayed);
    forall p, x ensures Live(p, x, t) == Live(p, x, r) && All(p, x, t) == All(p, x, r) {
      CountSort(p, x, cfg, r.displayed);
    }
    forall x ensures All(Key, x, t) == All(Key, x, q) + One(Key, x, n) {
      assert All(Key, x, t) == All(Key, x, r);
    }
  }

  /** Not found by id means not live, provided it is not in history either. */
  lemma FreeId(q: Queues, id: int)
    requires ReplaceIdSlot(q, id).NoSlot? && IndexOfId(q.history, id) == |q.history|
    ensures Live(Id, id, q) == 0
  {
    CountAbsent(Id, id, q.displayed);
    CountAbsent(Id, id, q.waiting);
    CountAbsent(Id, id, q.history);
  }

  lemma SlotHasId(q: Queues, id: int)
    requires !ReplaceIdSlot(q, id).NoSlot?
    ensures NoteIn(q, ReplaceIdSlot(q, id)).id == id
  {
  }

  /** Nothing in a placed queue was lost by placing. */
  lemma PlacedLosesNone(cfg: Settings, q: Queues, n: Note, now: int, iconChanged: set<nat>)
    ensures NoneLost(q) ==> NoneLost(Place(cfg, q, n, now, iconChanged))
  {
  }

  /** A client that asks for an id: every object stays in one place, whatever id it is. */
  lemma PlaceWithIdPlaced(cfg: Settings, q: Queues, n: Note, now: int, iconChanged: set<nat>)
    requires Sound(q) && n.key == q.born && Fresh(n) && n.id != 0
    ensures var q1 := q.(born := q.born + 1);
            var r, s := Place(cfg, q1, n, now, iconChanged), ReplaceIdSlot(q1, n.id);
            && Placed(q, n, r) && r.nextId == q.nextId
            && forall x :: Live(Id, x, r)
                           == Live(Id, x, q) - (if s.NoSlot? then 0 else One(Id, x, NoteIn(q1, s))) + One(Id, x, n)
  {
    var q1 := q.(born := q.born + 1);
    var byId := ReplaceIdSlot(q1, n.id);
    if !byId.NoSlot? {
      ReplacePlaced(q, byId, n, now);
      assert Place(cfg, q1, n, now, iconChanged) == ReplaceIn(q1, byId, n, now);
    } else {
      EnqueuePlaced(cfg, q, n, q.nextId);
    }
  }

  lemma PlaceWithIdKeeps(cfg: Settings, q: Queues, n: Note, now: int, iconChanged: set<nat>)
    requires Inv(q) && n.key == q.born && Fresh(n) && IdIsSafe(q, n.id) && n.id != 0
    ensures IdsDistinct(Place(cfg, q.(born := q.born + 1), n, now, iconChanged))
  {
    var q1 := q.(born := q.born + 1);
    var byId := ReplaceIdSlot(q1, n.id);
    PlaceWithIdPlaced(cfg, q, n, now, iconChanged);
    if byId.NoSlot? { FreeId(q, n.id); } else { SlotHasId(q1, n.id); }
  }

  lemma NewIdDistinct(q: Queues, r: Queues)
    requires IdsDistinct(q) && r.nextId == q.nextId + 1
    requires forall x :: Live(Id, x, r) <= Live(Id, x, q) + (if x == r.nextId then 1 else 0)
    ensures IdsDistinct(r)
  {
    forall x ensures Live(Id, x, r) <= (if 0 < x <= r.nextId then 1 else 0) {
      assert Live(Id, x, q) <= (if 0 < x <= q.nextId then 1 else 0);
    }
  }

  lemma PlaceNewPlaced(cfg: Settings, q: Queues, n: Note, now: int, iconChanged: set<nat>)
    requires Sound(q) && n.key == q.born && Fresh(n)
    ensures var r := PlaceNew(cfg, q.(born := q.born + 1, nextId := q.nextId + 1), n, now, iconChanged);
            Placed(q, n, r) && forall x :: Live(Id, x, r) <= Live(Id, x, q) + One(Id, x, n)
  {
    var q2 := q.(born := q.born + 1, nextId := q.nextId + 1);
    var byTag, byDup := TagSlot(q2, n), DuplicateSlot(q2, n, iconChanged);
    if n.content.stackTag != "" && !byTag.NoSlot? {
      StackPlaced(q, byTag, n, NoteIn(q2, byTag).dupCount, now, q.nextId + 1);
    } else if cfg.stackDuplicates && !byDup.NoSlot? {
      var d := DuplicateCount(NoteIn(q2, byDup), n);
      StackPlaced(q, byDup, n, d, now, q.nextId + 1);
      SortedPlaced(cfg, q, n, StackIn(q2, byDup, n, d, now));
    } else {
      EnqueuePlaced(cfg, q, n, q.nextId + 1);
    }
  }

  lemma PlacesNew(cfg: Settings, q: Queues, n: Note, now: int, iconChanged: set<nat>)
    requires n.id == 0
    ensures Place(cfg, q, n, now, iconChanged)
            == PlaceNew(cfg, q.(nextId := q.nextId + 1), n.(id := q.nextId + 1), now, iconChanged)
  {
  }

  lemma PlaceNewCounter(cfg: Settings, q: Queues, n: Note, now: int, iconChanged: set<nat>)
    ensures PlaceNew(cfg, q, n, now, iconChanged).nextId == q.nextId
  {
  }

  lemma PlaceIsNew(cfg: Settings, q: Queues, n: Note, now: int, iconChanged: set<nat>)
    requires n.id == 0
    ensures Place(cfg, q.(born := q.born + 1), n, now, iconChanged)
            == PlaceNew(cfg, q.(born := q.born + 1, nextId := q.nextId + 1), n.(id := q.nextId + 1), now, iconChanged)
    ensures Place(cfg, q.(born := q.born + 1), n, now, iconChanged).nextId == q.nextId + 1
  {
    PlacesNew(cfg, q.(born := q.born + 1), n, now, iconChanged);
    PlaceNewCounter(cfg, q.(born := q.born + 1, nextId := q.nextId + 1), n.(id := q.nextId + 1), now, iconChanged);
  }

  lemma PlaceNewKeeps(cfg: Settings, q: Queues, n: Note, now: int, iconChanged: set<nat>)
    requires Inv(q) && n.key == q.born && Fresh(n) && n.id == 0
    ensures IdsDistinct(Place(cfg, q.(born := q.born + 1), n, now, iconChanged))
  {
    PlaceNewPlaced(cfg, q, n.(id := q.nextId + 1), now, iconChanged);
    PlaceIsNew(cfg, q, n, now, iconChanged);
    NewIdDistinct(q, Place(cfg, q.(born := q.born + 1), n, now, iconChanged));
  }

  lemma PlaceNewSound(cfg: Settings, q: Queues, n: Note, now: int, iconChanged: set<nat>)
    requires Sound(q) && n.key == q.born && Fresh(n) && n.id == 0
    ensures Sound(Place(cfg, q.(born := q.born + 1), n, now, iconChanged))
  {
    var n' := n.(id := q.nextId + 1);
    PlaceNewPlaced(cfg, q, n', now, iconChanged);
    PlaceIsNew(cfg, q, n, now, iconChanged);
    PlacedEachOnce(q, n', Place(cfg, q.(born := q.born + 1), n, now, iconChanged));
  }

  lemma PlaceSound(cfg: Settings, q: Queues, n: Note, now: int, iconChanged: set<nat>)
    requires Sound(q) && n.key == q.born && Fresh(n)
    ensures Sound(Place(cfg, q.(born := q.born + 1), n, now, iconChanged))
  {
    if n.id == 0 {
      PlaceNewSound(cfg, q, n, now, iconChanged);
    } else {
      PlaceWithIdPlaced(cfg, q, n, now, iconChanged);
      PlacedEachOnce(q, n, Place(cfg, q.(born := q.born + 1), n, now, iconChanged));
    }
  }

  lemma PlaceKeeps(cfg: Settings, q: Queues, n: Note, now: int, iconChanged: set<nat>)
    requires Inv(q) && n.key == q.born && Fresh(n) && IdIsSafe(q, n.id)
    ensures Inv(Place(cfg, q.(born := q.born + 1), n, now, iconChanged))
  {
    PlaceSound(cfg, q, n, now, iconChanged);
    PlacedLosesNone(cfg, q.(born := q.born + 1), n, now, iconChanged);
    if n.id == 0 {
      PlaceNewKeeps(cfg, q, n, now, iconChanged);
    } else {
      PlaceWithIdKeeps(cfg, q, n, now, iconChanged);
    }
  }

  /** What an arrival leaves: sound queues, and the whole invariant when it held and the id
      is safe. */
  ghost predicate Receives(cfg: Settings, q: Queues, n: Note, r: Queues) {
    Sound(r) && HistoryFits(cfg, q, r) && (Inv(q) && IdIsSafe(q, n.id) ==> Inv(r))
  }

  lemma DismissedPlaced(q: Queues, n: Note)
    requires Sound(q) && n.key == q.born && Fresh(n)
    ensures var r := Dismiss(q.(born := q.born + 1), n);
            Placed(q, n, r) && forall x :: Live(Id, x, r) == Live(Id, x, q)
  {
    var r := Dismiss(q.(born := q.born + 1), n);
    NotYetKnown(q, n);
    SignalOther(q.(born := q.born + 1), n, REASON_USER);
    forall p, x ensures All(p, x, r) == All(p, x, q) + One(p, x, n) && Live(p, x, r) == Live(p, x, q) {
      CountDrop(p, x, q.dropped, Dropped(Signalled(n), Skipped));
    }
  }

  lemma SkippedKeeps(cfg: Settings, status: Status, q: Queues, n: Note, now: int, iconChanged: set<nat>)
    requires Sound(q) && n.key == q.born && Fresh(n) && n.content.msg == ""
    ensures Receives(cfg, q, n, Notify(cfg, status, q, n, now, iconChanged))
  {
    var r := Dismiss(q.(born := q.born + 1), n);
    DismissedPlaced(q, n);
    PlacedEachOnce(q, n, r);
    assert r == Notify(cfg, status, q, n, now, iconChanged);
  }

  lemma PlaceKeepsHistory(cfg: Settings, q: Queues, n: Note, now: int, iconChanged: set<nat>)
    ensures Place(cfg, q, n, now, iconChanged).history == q.history
  {
  }

  lemma SuppressKeeps(cfg: Settings, status: Status, n: Note, r: Queues, id: int)
    requires Sound(r)
    ensures var c := CloseSuppressed(cfg, status, r, n, id);
            Sound(c) && HistoryFits(cfg, r, c) && (Inv(r) ==> Inv(c))
  {
    CloseIdKeeps(cfg, r, id, REASON_UNDEF);
  }

  lemma InsertKeeps(cfg: Settings, status: Status, q: Queues, n: Note, now: int, iconChanged: set<nat>)
    requires Sound(q) && n.key == q.born && Fresh(n) && n.content.msg != ""
    ensures Receives(cfg, q, n, Insert(cfg, status, q.(born := q.born + 1), n, now, iconChanged))
  {
    var q1 := q.(born := q.born + 1);
    PlaceSound(cfg, q, n, now, iconChanged);
    if Inv(q) && IdIsSafe(q, n.id) { PlaceKeeps(cfg, q, n, now, iconChanged); }
    PlaceKeepsHistory(cfg, q1, n, now, iconChanged);
    SuppressKeeps(cfg, status, n, Place(cfg, q1, n, now, iconChanged), AssignedId(q1, n));
  }

  lemma InsertsWhenTold(cfg: Settings, status: Status, q: Queues, n: Note, now: int, iconChanged: set<nat>)
    requires n.content.msg != ""
    ensures InsertOrDismiss(cfg, status, q, n, now, iconChanged) == Insert(cfg, status, q, n, now, iconChanged)
  {
  }

  lemma NotifyInserts(cfg: Settings, status: Status, q: Queues, n: Note, now: int, iconChanged: set<nat>)
    requires n.content.msg != ""
    ensures Notify(cfg, status, q, n, now, iconChanged)
            == Insert(cfg, status, q.(born := q.born + 1), n, now, iconChanged)
  {
    InsertsWhenTold(cfg, status, q.(born := q.born + 1), n, now, iconChanged);
  }

  /** A notification may arrive in any state and under any id: every object stays in one
      place and the signals agree. Ids stay distinct besides when its id is safe. */
  lemma NotifyKeeps(cfg: Settings, status: Status, q: Queues, n: Note, now: int, iconChanged: set<nat>)
    requires Sound(q) && n.key == q.born && Fresh(n)
    ensures var r := Notify(cfg, status, q, n, now, iconChanged);
            Sound(r) && HistoryFits(cfg, q, r) && (Inv(q) && IdIsSafe(q, n.id) ==> Inv(r))
  {
    if n.content.msg == "" {
      SkippedKeeps(cfg, status, q, n, now, iconChanged);
    } else {
      InsertKeeps(cfg, status, q, n, now, iconChanged);
      NotifyInserts(cfg, status, q, n, now, iconChanged);
    }
  }

  /** The guard is exact: for a notification with text that fullscreen mode does not
      suppress, distinct ids survive its arrival if and only if the client's id is safe. */
  lemma IdsSurviveIffSafe(cfg: Settings, status: Status, q: Queues, n: Note, now: int, iconChanged: set<nat>)
    requires Inv(q) && n.key == q.born && Fresh(n)
    requires n.content.msg != "" && !Suppressed(n, status)
    ensures IdsDistinct(Notify(cfg, status, q, n, now, iconChanged)) <==> IdIsSafe(q, n.id)
  {
    if IdIsSafe(q, n.id) {
      NotifyKeeps(cfg, status, q, n, now, iconChanged);
    } else {
      var q1 := q.(born := q.born + 1);
      var byId := ReplaceIdSlot(q1, n.id);
      var r := Notify(cfg, status, q, n, now, iconChanged);
      if !byId.NoSlot? {
        SlotHasId(q1, n.id);
        SlotHolder(q, byId);
        var h := IndexOfId(q.history, n.id);
        CountSplit(Id, n.id, q.history, h);
        TakeSlotCounts(q, byId, n, 0, 0, Id, n.id);
      } else {
        CountInsert(Id, n.id, cfg, q.waiting, n);
        if 0 < n.id <= q.nextId {
          CountSplit(Id, n.id, q.history, IndexOfId(q.history, n.id));
        }
        assert Live(Id, n.id, r) > (if 0 < n.id <= r.nextId then 1 else 0);
      }
    }
  }
}
