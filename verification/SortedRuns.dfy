/** When the queues are in order: exactly which arrivals and rule changes put a notification
    out of order, and what that means for every update of a run. */
module SortedRuns {
  import opened Notifications
  import opened SortedQueue
  import opened Seeping
  import opened QueueSpec
  import opened Conservation
  import opened Arrival
  import opened Update
  import opened Runs
  import opened Scheduling
  import opened Closing
  import opened Selection
  import opened HeldBack
  import opened Lineup

  // ---------- one replacement ----------

  /** The neighbours allow `n` in the place of the notification at `i`. */
  predicate Between(cfg: Settings, s: seq<Note>, i: nat, n: Note)
    requires i < |s|
  {
    && (i > 0 ==> Rank(cfg, s[i - 1]) <= Rank(cfg, n))
    && (i + 1 < |s| ==> Rank(cfg, n) <= Rank(cfg, s[i + 1]))
  }

  ghost predicate BothSorted(cfg: Settings, q: Queues) {
    Sorted(cfg, q.displayed) && Sorted(cfg, q.waiting)
  }

  lemma ReplaceSortedIff(cfg: Settings, s: seq<Note>, i: nat, n: Note)
    requires Sorted(cfg, s) && i < |s|
    ensures Sorted(cfg, s[i := n]) <==> Between(cfg, s, i, n)
  {
    var r := s[i := n];
    if Sorted(cfg, r) {
      assert i > 0 ==> Rank(cfg, r[i - 1]) <= Rank(cfg, r[i]);
      assert i + 1 < |s| ==> Rank(cfg, r[i]) <= Rank(cfg, r[i + 1]);
    }
  }

  predicate SlotFits(cfg: Settings, q: Queues, s: Slot, n: Note)
    requires SlotOf(q, s)
  {
    match s
    case NoSlot => true
    case InDisplayed(i) => Between(cfg, q.displayed, i, n)
    case InWaiting(i) => Between(cfg, q.waiting, i, n)
  }

  lemma TakeSlotSortedIff(cfg: Settings, q: Queues, s: Slot, n: Note, dupCount: int, now: int)
    requires SlotOf(q, s) && !s.NoSlot? && BothSorted(cfg, q)
    ensures BothSorted(cfg, TakeSlot(q, s, n, dupCount, now)) <==> SlotFits(cfg, q, s, n)
  {
    var n' := n.(dupCount := dupCount);
    match s
    case InDisplayed(i) => ReplaceSortedIff(cfg, q.displayed, i, n'.(start := now));
    case InWaiting(i) => ReplaceSortedIff(cfg, q.waiting, i, n');
  }

  // ---------- one arrival ----------

  /** The slot a notification under a new id is stacked in. */
  function NewSlot(cfg: Settings, q: Queues, n: Note, iconChanged: set<nat>): (s: Slot)
    ensures SlotOf(q, s)
  {
    if n.content.stackTag != "" && !TagSlot(q, n).NoSlot? then TagSlot(q, n)
    else if cfg.stackDuplicates then DuplicateSlot(q, n, iconChanged)
    else NoSlot
  }

  /** Displayed is sorted again: only when a duplicate is stacked in update order. */
  predicate StacksSorted(cfg: Settings, q: Queues, n: Note) {
    cfg.sort == ByUpdate && !(n.content.stackTag != "" && !TagSlot(q, n).NoSlot?)
  }

  /** The slot an arriving notification takes over. */
  function TakenSlot(cfg: Settings, q: Queues, n: Note, iconChanged: set<nat>): (s: Slot)
    ensures SlotOf(q, s)
  {
    if n.id != 0 then ReplaceIdSlot(q, n.id) else NewSlot(cfg, q, n, iconChanged)
  }

  predicate SortsAgain(cfg: Settings, q: Queues, n: Note) {
    n.id == 0 && StacksSorted(cfg, q, n)
  }

  function Numbered(q: Queues, n: Note): Note {
    n.(id := AssignedId(q, n))
  }

  predicate PlaceFits(cfg: Settings, q: Queues, n: Note, iconChanged: set<nat>) {
    var s := TakenSlot(cfg, q, n, iconChanged);
    (s.InDisplayed? && SortsAgain(cfg, q, n)) || SlotFits(cfg, q, s, Numbered(q, n))
  }

  /** `n` takes over position `i`, and then the first holder of its id is taken out: itself, or
      another one in front, whose place the others close up. */
  predicate CloseFits(cfg: Settings, s: seq<Note>, i: nat, n: Note)
    requires i < |s|
  {
    var first := IndexOfId(s[..i], n.id);
    first == i || Between(cfg, RemoveAt(s, first), i - 1, n)
  }

  predicate SlotCloses(cfg: Settings, q: Queues, s: Slot, n: Note)
    requires SlotOf(q, s)
  {
    match s
    case NoSlot => true
    case InDisplayed(i) => CloseFits(cfg, q.displayed, i, n)
    case InWaiting(i) => CloseFits(cfg, q.waiting, i, n)
  }

  /** The same when fullscreen mode suppresses the arrival, which is closed at once. */
  predicate SuppressedFits(cfg: Settings, q: Queues, n: Note, iconChanged: set<nat>) {
    var s := TakenSlot(cfg, q, n, iconChanged);
    (s.InDisplayed? && SortsAgain(cfg, q, n)) || SlotCloses(cfg, q, s, Numbered(q, n))
  }

  /** The arrival leaves the queues in order. */
  predicate ArrivalFits(cfg: Settings, status: Status, q: Queues, n: Note, iconChanged: set<nat>) {
    || n.content.msg == ""
    || (if Suppressed(n, status) then SuppressedFits(cfg, q, n, iconChanged) else PlaceFits(cfg, q, n, iconChanged))
  }

  lemma {:induction false} SlotsIgnoreId(s: seq<Note>, n: Note, id: int, iconChanged: set<nat>)
    ensures IndexOfTag(s, n.(id := id)) == IndexOfTag(s, n)
    ensures IndexOfDuplicate(s, n.(id := id), iconChanged) == IndexOfDuplicate(s, n, iconChanged)
  {
    if s != [] { SlotsIgnoreId(s[1..], n, id, iconChanged); }
  }

  /** `n` was put in its slot, or inserted. */
  ghost predicate Took(cfg: Settings, q: Queues, s: Slot, n: Note, dupCount: int, now: int, again: bool, p: Queues)
    requires SlotOf(q, s)
  {
    if s.NoSlot? then p.displayed == q.displayed && p.waiting == InsertSorted(cfg, q.waiting, n)
    else
      var t := TakeSlot(q, s, n, dupCount, now);
      p.waiting == t.waiting && p.displayed == if again then StableSort(cfg, t.displayed) else t.displayed
  }

  lemma PlaceWithIdForm(cfg: Settings, q: Queues, n: Note, now: int) returns (dupCount: int)
    ensures Took(cfg, q, ReplaceIdSlot(q, n.id), n, dupCount, now, false, PlaceWithId(cfg, q, n, now))
  {
    var s := ReplaceIdSlot(q, n.id);
    dupCount := if s.NoSlot? then 0 else NoteIn(q, s).dupCount;
  }

  lemma PlaceNewForm(cfg: Settings, q: Queues, n: Note, now: int, iconChanged: set<nat>) returns (dupCount: int)
    ensures Took(cfg, q, NewSlot(cfg, q, n, iconChanged), n, dupCount, now, StacksSorted(cfg, q, n),
                 PlaceNew(cfg, q, n, now, iconChanged))
  {
    var s := NewSlot(cfg, q, n, iconChanged);
    dupCount := if s.NoSlot? then 0
                else if n.content.stackTag != "" && !TagSlot(q, n).NoSlot? then NoteIn(q, s).dupCount
                else DuplicateCount(NoteIn(q, s), n);
  }

  lemma NewSlotIgnoresId(cfg: Settings, q: Queues, q': Queues, n: Note, id: int, iconChanged: set<nat>)
    requires q'.displayed == q.displayed && q'.waiting == q.waiting
    ensures NewSlot(cfg, q', n.(id := id), iconChanged) == NewSlot(cfg, q, n, iconChanged)
    ensures StacksSorted(cfg, q', n.(id := id)) == StacksSorted(cfg, q, n)
  {
    SlotsIgnoreId(q.displayed, n, id, iconChanged);
    SlotsIgnoreId(q.waiting, n, id, iconChanged);
  }

  lemma NumberedForm(cfg: Settings, q: Queues, n: Note, now: int, iconChanged: set<nat>) returns (dupCount: int)
    requires n.id == 0
    ensures Took(cfg, q, NewSlot(cfg, q, n, iconChanged), Numbered(q, n), dupCount, now, StacksSorted(cfg, q, n),
                 Place(cfg, q, n, now, iconChanged))
  {
    var q2, n2 := q.(nextId := q.nextId + 1), n.(id := q.nextId + 1);
    NewSlotIgnoresId(cfg, q, q2, n, q.nextId + 1, iconChanged);
    dupCount := PlaceNewForm(cfg, q2, n2, now, iconChanged);
  }

  /** What the arrival does to the two live queues. */
  lemma PlaceForm(cfg: Settings, q: Queues, n: Note, now: int, iconChanged: set<nat>) returns (dupCount: int)
    ensures Took(cfg, q, TakenSlot(cfg, q, n, iconChanged), Numbered(q, n), dupCount, now, SortsAgain(cfg, q, n),
                 Place(cfg, q, n, now, iconChanged))
  {
    if n.id != 0 {
      dupCount := PlaceWithIdForm(cfg, q, n, now);
      assert Numbered(q, n) == n;
    } else {
      dupCount := NumberedForm(cfg, q, n, now, iconChanged);
    }
  }

  /** Everything the comparator may meet, history included, is inside one window. */
  ghost predicate Windowed(cfg: Settings, base: int, q: Queues) {
    Comparable(cfg, base, q) && AllInWindow(cfg, base, q.history)
  }

  lemma TakeSlotComparable(cfg: Settings, base: int, q: Queues, s: Slot, n: Note, dupCount: int, now: int)
    requires SlotOf(q, s) && !s.NoSlot? && Comparable(cfg, base, q) && InWindow(cfg, base, n)
    ensures Comparable(cfg, base, TakeSlot(q, s, n, dupCount, now))
  {
  }

  lemma PlaceSortedIff(cfg: Settings, base: int, q: Queues, n: Note, now: int, iconChanged: set<nat>)
    requires Comparable(cfg, base, q) && BothSorted(cfg, q) && InWindow(cfg, base, Numbered(q, n))
    ensures var p := Place(cfg, q, n, now, iconChanged);
            && Comparable(cfg, base, p)
            && (BothSorted(cfg, p) <==> PlaceFits(cfg, q, n, iconChanged))
  {
    var p, s, n' := Place(cfg, q, n, now, iconChanged), TakenSlot(cfg, q, n, iconChanged), Numbered(q, n);
    var dupCount := PlaceForm(cfg, q, n, now, iconChanged);
    if s.NoSlot? {
      InsertKeepsOrder(cfg, base, q.waiting, n');
    } else {
      var t := TakeSlot(q, s, n', dupCount, now);
      TakeSlotComparable(cfg, base, q, s, n', dupCount, now);
      TakeSlotSortedIff(cfg, q, s, n', dupCount, now);
      SortSorts(cfg, base, t.displayed);
    }
  }

  lemma {:induction false} FirstInFront(s: seq<Note>, i: nat, n: Note)
    requires i < |s|
    ensures IndexOfId(s[i := n], n.id) == IndexOfId(s[..i], n.id)
  {
    if i > 0 && s[0].id != n.id {
      FirstInFront(s[1..], i - 1, n);
      assert s[i := n][1..] == s[1..][i - 1 := n] && s[..i][1..] == s[1..][..i - 1];
    }
  }

  lemma OtherOutSortedIff(cfg: Settings, s: seq<Note>, i: nat, n: Note, first: nat)
    requires Sorted(cfg, s) && first < i < |s|
    ensures Sorted(cfg, RemoveAt(s[i := n], first)) <==> Between(cfg, RemoveAt(s, first), i - 1, n)
  {
    var rest := RemoveAt(s, first);
    FirstOutSorted(cfg, s, first);
    assert RemoveAt(s[i := n], first) == rest[i - 1 := n];
    ReplaceSortedIff(cfg, rest, i - 1, n);
  }

  /** What is left of a queue when `n` took over position `i` and the first holder of its id went. */
  lemma TakenOutSortedIff(cfg: Settings, s: seq<Note>, i: nat, n: Note)
    requires Sorted(cfg, s) && i < |s|
    ensures IndexOfId(s[i := n], n.id) <= i
    ensures Sorted(cfg, RemoveAt(s[i := n], IndexOfId(s[i := n], n.id))) <==> CloseFits(cfg, s, i, n)
  {
    var first := IndexOfId(s[..i], n.id);
    FirstInFront(s, i, n);
    if first == i {
      FirstOutSorted(cfg, s, i);
      assert RemoveAt(s[i := n], i) == RemoveAt(s, i);
    } else {
      OtherOutSortedIff(cfg, s, i, n, first);
    }
  }

  lemma FirstOutSorted(cfg: Settings, s: seq<Note>, i: nat)
    requires Sorted(cfg, s) && i <= |s|
    ensures Sorted(cfg, if i < |s| then RemoveAt(s, i) else s)
  {
  }

  lemma CloseShownIff(cfg: Settings, q: Queues, p: Queues, i: nat, n: Note, reason: int)
    requires BothSorted(cfg, q) && i < |q.displayed|
    requires p.displayed == q.displayed[i := n] && p.waiting == q.waiting
    ensures BothSorted(cfg, CloseId(cfg, p, n.id, reason)) <==> CloseFits(cfg, q.displayed, i, n)
  {
    CloseIdQueues(cfg, p, n.id, reason);
    TakenOutSortedIff(cfg, q.displayed, i, n);
    FirstOutSorted(cfg, q.waiting, IndexOfId(q.waiting, n.id));
  }

  lemma CloseQueuedIff(cfg: Settings, q: Queues, p: Queues, i: nat, n: Note, reason: int)
    requires BothSorted(cfg, q) && i < |q.waiting|
    requires p.waiting == q.waiting[i := n] && p.displayed == q.displayed
    ensures BothSorted(cfg, CloseId(cfg, p, n.id, reason)) <==> CloseFits(cfg, q.waiting, i, n)
  {
    CloseIdQueues(cfg, p, n.id, reason);
    TakenOutSortedIff(cfg, q.waiting, i, n);
    FirstOutSorted(cfg, q.displayed, IndexOfId(q.displayed, n.id));
  }

  lemma CloseFitsAlike(cfg: Settings, s: seq<Note>, i: nat, n: Note, m: Note)
    requires i < |s| && SameSortKey(n, m)
    ensures CloseFits(cfg, s, i, n) == CloseFits(cfg, s, i, m)
  {
    assert Rank(cfg, n) == Rank(cfg, m);
  }

  /** A notification that took over a slot and is closed at once. */
  lemma CloseSlotIff(cfg: Settings, q: Queues, p: Queues, s: Slot, n: Note, dupCount: int, now: int, reason: int)
    requires BothSorted(cfg, q) && SlotOf(q, s) && !s.NoSlot?
    requires var t := TakeSlot(q, s, n, dupCount, now); p.displayed == t.displayed && p.waiting == t.waiting
    ensures BothSorted(cfg, CloseId(cfg, p, n.id, reason)) <==> SlotCloses(cfg, q, s, n)
  {
    var n' := n.(dupCount := dupCount);
    match s
    case InDisplayed(i) =>
      CloseShownIff(cfg, q, p, i, n'.(start := now), reason);
      CloseFitsAlike(cfg, q.displayed, i, n, n'.(start := now));
    case InWaiting(i) =>
      CloseQueuedIff(cfg, q, p, i, n', reason);
      CloseFitsAlike(cfg, q.waiting, i, n, n');
  }

  lemma SuppressedSortedIff(cfg: Settings, base: int, q: Queues, n: Note, now: int, iconChanged: set<nat>)
    requires Comparable(cfg, base, q) && BothSorted(cfg, q) && InWindow(cfg, base, Numbered(q, n))
    ensures BothSorted(cfg, CloseId(cfg, Place(cfg, q, n, now, iconChanged), AssignedId(q, n), REASON_UNDEF))
            <==> SuppressedFits(cfg, q, n, iconChanged)
  {
    var p, s := Place(cfg, q, n, now, iconChanged), TakenSlot(cfg, q, n, iconChanged);
    var dupCount := PlaceForm(cfg, q, n, now, iconChanged);
    PlaceSortedIff(cfg, base, q, n, now, iconChanged);
    if s.NoSlot? || (s.InDisplayed? && SortsAgain(cfg, q, n)) {
      CloseIdOrdered(cfg, base, true, p, AssignedId(q, n), REASON_UNDEF);
    } else {
      if s.InWaiting? { SortedIsFixed(cfg, base, q.displayed); }
      CloseSlotIff(cfg, q, p, s, Numbered(q, n), dupCount, now, REASON_UNDEF);
    }
  }

  lemma ClosedOrNotIff(cfg: Settings, base: int, status: Status, q: Queues, n: Note, now: int, iconChanged: set<nat>,
                       p: Queues)
    requires Comparable(cfg, base, q) && BothSorted(cfg, q) && InWindow(cfg, base, Numbered(q, n))
    requires p == Place(cfg, q, n, now, iconChanged) && n.content.msg != ""
    ensures var r := CloseSuppressed(cfg, status, p, n, AssignedId(q, n));
            Comparable(cfg, base, r) && (BothSorted(cfg, r) <==> ArrivalFits(cfg, status, q, n, iconChanged))
  {
    PlaceSortedIff(cfg, base, q, n, now, iconChanged);
    if Suppressed(n, status) {
      SuppressedSortedIff(cfg, base, q, n, now, iconChanged);
      CloseIdOrdered(cfg, base, false, p, AssignedId(q, n), REASON_UNDEF);
    }
  }

  lemma SlotIgnoresBirths(cfg: Settings, q: Queues, q': Queues, n: Note, iconChanged: set<nat>)
    requires q'.displayed == q.displayed && q'.waiting == q.waiting
    ensures TakenSlot(cfg, q', n, iconChanged) == TakenSlot(cfg, q, n, iconChanged)
    ensures SortsAgain(cfg, q', n) == SortsAgain(cfg, q, n)
  {
  }

  lemma FitIgnoresBirths(cfg: Settings, q: Queues, q': Queues, s: Slot, n: Note)
    requires q'.displayed == q.displayed && q'.waiting == q.waiting && SlotOf(q, s)
    ensures SlotFits(cfg, q', s, n) == SlotFits(cfg, q, s, n) && SlotCloses(cfg, q', s, n) == SlotCloses(cfg, q, s, n)
  {
  }

  lemma FitsIgnoresBirths(cfg: Settings, q: Queues, q': Queues, n: Note, iconChanged: set<nat>)
    requires q'.displayed == q.displayed && q'.waiting == q.waiting && q'.nextId == q.nextId
    ensures PlaceFits(cfg, q', n, iconChanged) == PlaceFits(cfg, q, n, iconChanged)
    ensures SuppressedFits(cfg, q', n, iconChanged) == SuppressedFits(cfg, q, n, iconChanged)
  {
    SlotIgnoresBirths(cfg, q, q', n, iconChanged);
    FitIgnoresBirths(cfg, q, q', TakenSlot(cfg, q, n, iconChanged), Numbered(q, n));
  }

  /** Exactly when an arrival, under any id, leaves both queues in order: when it is inserted,
      when the queue is sorted again, or when the ranks of both neighbours of the slot it takes
      over allow it; closed at once, it leaves no trace unless another holder of its id goes. */
  lemma ArrivalSortedIff(cfg: Settings, base: int, status: Status, q: Queues, n: Note, now: int, iconChanged: set<nat>)
    requires Comparable(cfg, base, q) && BothSorted(cfg, q)
    requires n.content.msg != "" ==> InWindow(cfg, base, Numbered(q, n))
    ensures var r := Notify(cfg, status, q, n, now, iconChanged);
            Comparable(cfg, base, r) && (BothSorted(cfg, r) <==> ArrivalFits(cfg, status, q, n, iconChanged))
  {
    if n.content.msg != "" {
      var q1 := q.(born := q.born + 1);
      NotifyInserts(cfg, status, q, n, now, iconChanged);
      ClosedOrNotIff(cfg, base, status, q1, n, now, iconChanged, Place(cfg, q1, n, now, iconChanged));
      FitsIgnoresBirths(cfg, q, q1, n, iconChanged);
    }
  }

  // ---------- the window of history ----------

  lemma RetireFiled(cfg: Settings, base: int, q: Queues, n: Note, reason: int)
    requires AllInWindow(cfg, base, q.history) && InWindow(cfg, base, n)
    ensures AllInWindow(cfg, base, Retire(cfg, q, n, reason).history)
  {
  }

  lemma CloseIdFiled(cfg: Settings, base: int, q: Queues, id: int, reason: int)
    requires Windowed(cfg, base, q)
    ensures AllInWindow(cfg, base, CloseId(cfg, q, id, reason).history)
  {
    var d, w := IndexOfId(q.displayed, id), IndexOfId(q.waiting, id);
    if w < |q.waiting| {
      var n := q.waiting[w];
      assert n in q.waiting;
      RetireFiled(cfg, base, q.(waiting := RemoveAt(q.waiting, w)), n, reason);
      if d < |q.displayed| {
        RetireFiled(cfg, base, Drop(q, q.displayed[d], Shadowed).(displayed := RemoveAt(q.displayed, d),
                                                                   waiting := RemoveAt(q.waiting, w)), n, reason);
      }
    } else if d < |q.displayed| {
      assert q.displayed[d] in q.displayed;
      RetireFiled(cfg, base, q.(displayed := RemoveAt(q.displayed, d)), q.displayed[d], reason);
    }
  }

  lemma RemoveIdFiled(cfg: Settings, base: int, q: Queues, id: int, reason: int)
    requires Windowed(cfg, base, q)
    ensures AllInWindow(cfg, base, RemoveId(cfg, q, id, reason).history)
  {
    CloseIdFiled(cfg, base, q, id, reason);
  }

  lemma MarkedFiled(cfg: Settings, base: int, q: Queues, i: nat, n: Note, reason: int)
    requires Windowed(cfg, base, q) && i < |q.displayed| && SameSortKey(q.displayed[i], n)
    ensures var c := SetDisplayed(q, i, n);
            && AllInWindow(cfg, base, CloseId(cfg, c, n.id, reason).history)
            && AllInWindow(cfg, base, RemoveId(cfg, c, n.id, reason).history)
  {
    SetKeepsOrder(cfg, base, q.displayed, i, n);
    CloseIdFiled(cfg, base, SetDisplayed(q, i, n), n.id, reason);
    RemoveIdFiled(cfg, base, SetDisplayed(q, i, n), n.id, reason);
  }

  lemma SweepUnmarkedFiled(cfg: Settings, base: int, status: Status, time: int, clock: nat -> int, q: Queues, i: nat)
    requires Windowed(cfg, base, q) && i < |q.displayed|
    ensures AllInWindow(cfg, base, SweepUnmarked(cfg, status, time, clock, q, i).0.history)
  {
    var n := q.displayed[i];
    CloseIdFiled(cfg, base, q, n.id, REASON_TIME);
    MarkedFiled(cfg, base, q, i, Touched(n, status, clock(n.key)), REASON_UNDEF);
  }

  lemma SweepStepFiled(cfg: Settings, base: int, status: Status, time: int, clock: nat -> int, q: Queues, i: nat)
    requires Windowed(cfg, base, q) && i < |q.displayed|
    ensures AllInWindow(cfg, base, SweepStep(cfg, status, time, clock, q, i).0.history)
  {
    var n := q.displayed[i];
    if n.locked {
    } else if n.closeMark != 0 {
      MarkedFiled(cfg, base, q, i, n.(closeMark := 0), n.closeMark);
    } else if n.removeMark != 0 {
      MarkedFiled(cfg, base, q, i, n.(removeMark := 0), n.removeMark);
    } else {
      SweepUnmarkedFiled(cfg, base, status, time, clock, q, i);
    }
  }

  lemma {:induction false} SweepFiled(cfg: Settings, base: int, status: Status, time: int, clock: nat -> int,
                                      q: Queues, i: nat)
    requires Windowed(cfg, base, q) && i <= |q.displayed|
    ensures Windowed(cfg, base, Sweep(cfg, status, time, clock, q, i))
    decreases |q.displayed| - i
  {
    if i < |q.displayed| {
      var s := SweepStep(cfg, status, time, clock, q, i);
      SweepStepFiled(cfg, base, status, time, clock, q, i);
      SweepStepOrdered(cfg, base, false, status, time, clock, q, i);
      SweepFiled(cfg, base, status, time, clock, s.0, s.1);
    }
  }

  lemma PromoteStepFiled(cfg: Settings, base: int, status: Status, time: int, q: Queues, i: nat)
    requires Windowed(cfg, base, q) && i < |q.waiting|
    ensures AllInWindow(cfg, base, PromoteStep(cfg, status, time, q, i).0.history)
  {
    var n := q.waiting[i].(start := time);
    SetKeepsOrder(cfg, base, q.waiting, i, n);
    CloseIdFiled(cfg, base, SetWaiting(q, i, n), n.id, REASON_UNDEF);
    CloseIdFiled(cfg, base, SetWaiting(q, i, n), n.id, REASON_USER);
  }

  lemma {:induction false} PromoteFiled(cfg: Settings, base: int, status: Status, time: int, limit: int, q: Queues,
                                        i: nat)
    requires Windowed(cfg, base, q) && i <= |q.waiting|
    ensures Windowed(cfg, base, Promote(cfg, status, time, limit, q, i))
    decreases |q.waiting| - i
  {
    if i < |q.waiting| && |q.displayed| < limit {
      var s := PromoteStep(cfg, status, time, q, i);
      PromoteStepFiled(cfg, base, status, time, q, i);
      PromoteStepOrdered(cfg, base, false, status, time, q, i);
      PromoteFiled(cfg, base, status, time, limit, s.0, s.1);
    }
  }

  lemma {:induction false} TrimFiles(cfg: Settings, limit: int, q: Queues)
    requires 0 <= limit
    ensures Trim(cfg, limit, q).history == q.history
    decreases |q.displayed|
  {
    if |q.displayed| > limit { TrimFiles(cfg, limit, ToWaiting(cfg, q, |q.displayed| - 1)); }
  }

  lemma {:induction false} SeepFiles(cfg: Settings, status: Status, time: int, q: Queues)
    ensures Seep(cfg, status, time, q).history == q.history
    decreases UrgencyInversions(cfg, q.displayed, q.waiting), AllDescents(cfg, q.displayed, q.waiting),
              Depth(cfg, q.displayed, q.waiting)
  {
    if Seeps(cfg, status, q) {
      SwapDecreases(cfg, status, time, q);
      SeepFiles(cfg, status, time, Swap(cfg, time, q));
    }
  }

  lemma UpdateFiled(cfg: Settings, base: int, status: Status, time: int, clock: nat -> int, q: Queues)
    requires Windowed(cfg, base, q)
    ensures AllInWindow(cfg, base, Updated(cfg, status, time, clock, q).history)
  {
    var s := AfterSweep(cfg, status, time, clock, q);
    SweepFiled(cfg, base, status, time, clock, q, 0);
    PromoteFiled(cfg, base, status, time, Limit(cfg, s), s, 0);
    TrimFiles(cfg, Limit(cfg, s), AfterPromote(cfg, status, time, clock, q));
    SeepFiles(cfg, status, time, AfterTrim(cfg, status, time, clock, q));
  }

  // ---------- one step ----------

  /** In order, and inside the window. */
  ghost predicate InOrder(cfg: Settings, base: int, q: Queues) {
    Windowed(cfg, base, q) && BothSorted(cfg, q)
  }

  lemma CloseIdInOrder(cfg: Settings, base: int, q: Queues, id: int, reason: int)
    requires InOrder(cfg, base, q)
    ensures InOrder(cfg, base, CloseId(cfg, q, id, reason)) && InOrder(cfg, base, RemoveId(cfg, q, id, reason))
  {
    CloseIdFiled(cfg, base, q, id, reason);
    RemoveIdFiled(cfg, base, q, id, reason);
    CloseIdOrdered(cfg, base, true, q, id, reason);
  }

  lemma {:induction false} CloseDisplayedInOrder(cfg: Settings, base: int, q: Queues)
    requires InOrder(cfg, base, q)
    ensures InOrder(cfg, base, CloseDisplayed(cfg, q))
    decreases |q.displayed|
  {
    if q.displayed != [] {
      CloseIdInOrder(cfg, base, q, q.displayed[0].id, REASON_USER);
      CloseDisplayedInOrder(cfg, base, CloseId(cfg, q, q.displayed[0].id, REASON_USER));
    }
  }

  lemma {:induction false} CloseWaitingInOrder(cfg: Settings, base: int, q: Queues)
    requires InOrder(cfg, base, q)
    ensures InOrder(cfg, base, CloseWaiting(cfg, q))
    decreases |q.waiting|
  {
    if q.waiting != [] {
      CloseIdInOrder(cfg, base, q, q.waiting[0].id, REASON_USER);
      CloseWaitingInOrder(cfg, base, CloseId(cfg, q, q.waiting[0].id, REASON_USER));
    }
  }

  lemma PopInOrder(cfg: Settings, base: int, q: Queues, i: nat)
    requires InOrder(cfg, base, q) && i < |q.history|
    ensures InOrder(cfg, base, HistoryPopAt(cfg, q, i))
  {
    assert q.history[i] in q.history;
    InsertKeepsOrder(cfg, base, q.waiting, Redisplayed(cfg, q.history[i]));
  }

  lemma {:induction false} ClearInOrder(cfg: Settings, base: int, q: Queues)
    requires InOrder(cfg, base, q)
    ensures InOrder(cfg, base, HistoryClear(q))
    decreases |q.history|
  {
    if q.history != [] { ClearInOrder(cfg, base, Drop(q, q.history[0], Removed).(history := q.history[1..])); }
  }

  lemma SignalInOrder(cfg: Settings, base: int, q: Queues, id: int, reason: int)
    requires InOrder(cfg, base, q)
    ensures InOrder(cfg, base, SignalId(q, id, reason))
  {
    var d, w, h := IndexOfId(q.displayed, id), IndexOfId(q.waiting, id), IndexOfId(q.history, id);
    if d < |q.displayed| { SetKeepsOrder(cfg, base, q.displayed, d, Signalled(q.displayed[d])); }
    if w < |q.waiting| { SetKeepsOrder(cfg, base, q.waiting, w, Signalled(q.waiting[w])); }
    if h < |q.history| { SetKeepsOrder(cfg, base, q.history, h, Signalled(q.history[h])); }
  }

  /** What an arriving notification, or one that rules changed, must meet to stay inside the
      window. */
  ghost predicate StepInWindow(cfg: Settings, base: int, q: Queues, op: Op) {
    match op
    case Arrive(status, n, now, iconChanged) => n.content.msg != "" ==> InWindow(cfg, base, Numbered(q, n))
    case Rework(displayed, waiting, history) =>
      AllInWindow(cfg, base, displayed) && AllInWindow(cfg, base, waiting) && AllInWindow(cfg, base, history)
    case _ => true
  }

  /** The step puts nothing out of order. */
  ghost predicate StepFits(cfg: Settings, q: Queues, op: Op) {
    match op
    case Arrive(status, n, now, iconChanged) => ArrivalFits(cfg, status, q, n.(key := q.born), iconChanged)
    case Rework(displayed, waiting, history) =>
      CanRework(q, displayed, waiting, history) ==> StepsUp(cfg, displayed) && StepsUp(cfg, waiting)
    case _ => true
  }

  /** No notification ranks behind the next one. */
  predicate StepsUp(cfg: Settings, s: seq<Note>) {
    forall i | 0 < i < |s| :: Rank(cfg, s[i - 1]) <= Rank(cfg, s[i])
  }

  lemma {:induction false} StepsUpIsSorted(cfg: Settings, s: seq<Note>)
    ensures StepsUp(cfg, s) <==> Sorted(cfg, s)
  {
    if StepsUp(cfg, s) && |s| > 1 {
      var rest := s[..|s| - 1];
      StepsUpIsSorted(cfg, rest);
      assert StepsUp(cfg, rest);
      assert Rank(cfg, s[|s| - 2]) <= Rank(cfg, s[|s| - 1]);
      forall i | 0 <= i < |s| - 1 ensures Rank(cfg, s[i]) <= Rank(cfg, s[|s| - 1]) {
        assert i < |s| - 2 ==> Rank(cfg, rest[i]) <= Rank(cfg, rest[|s| - 2]);
      }
      forall i, j | 0 <= i < j < |s| ensures Rank(cfg, s[i]) <= Rank(cfg, s[j]) {
        if j < |s| - 1 { assert Rank(cfg, rest[i]) <= Rank(cfg, rest[j]); }
      }
    }
  }

  lemma ReworkSortedIff(cfg: Settings, base: int, q: Queues, op: Op)
    requires InOrder(cfg, base, q) && op.Rework? && StepInWindow(cfg, base, q, op)
    ensures Windowed(cfg, base, Step(cfg, q, op))
    ensures BothSorted(cfg, Step(cfg, q, op)) <==> StepFits(cfg, q, op)
  {
    StepsUpIsSorted(cfg, op.displayed);
    StepsUpIsSorted(cfg, op.waiting);
  }

  lemma CloseFilesArrived(cfg: Settings, base: int, p: Queues, n: Note, status: Status, id: int)
    requires Windowed(cfg, base, p)
    ensures AllInWindow(cfg, base, CloseSuppressed(cfg, status, p, n, id).history)
  {
    CloseIdFiled(cfg, base, p, id, REASON_UNDEF);
  }

  lemma ArrivalFiled(cfg: Settings, base: int, status: Status, q: Queues, n: Note, now: int, iconChanged: set<nat>)
    requires InOrder(cfg, base, q) && (n.content.msg != "" ==> InWindow(cfg, base, Numbered(q, n)))
    ensures AllInWindow(cfg, base, Notify(cfg, status, q, n, now, iconChanged).history)
  {
    if n.content.msg != "" {
      var q1 := q.(born := q.born + 1);
      var p := Place(cfg, q1, n, now, iconChanged);
      NotifyInserts(cfg, status, q, n, now, iconChanged);
      PlaceSortedIff(cfg, base, q1, n, now, iconChanged);
      PlaceKeepsHistory(cfg, q1, n, now, iconChanged);
      CloseFilesArrived(cfg, base, p, n, status, AssignedId(q1, n));
    }
  }

  lemma QuietStepInOrder(cfg: Settings, base: int, q: Queues, op: Op)
    requires InOrder(cfg, base, q) && !op.Arrive? && !op.Rework? && !op.Refresh?
    ensures InOrder(cfg, base, Step(cfg, q, op))
  {
    match op
    case ClientClose(id) =>
      CloseIdInOrder(cfg, base, q, id, REASON_SIG);
      SignalInOrder(cfg, base, q, id, REASON_SIG);
    case Close(id, reason) => CloseIdInOrder(cfg, base, q, id, reason);
    case Remove(id, reason) => CloseIdInOrder(cfg, base, q, id, reason);
    case CloseAll =>
      CloseDisplayedInOrder(cfg, base, q);
      CloseWaitingInOrder(cfg, base, CloseDisplayed(cfg, q));
    case Pop => if q.history != [] { PopInOrder(cfg, base, q, |q.history| - 1); }
    case PopById(id) =>
      if IndexOfId(q.history, id) < |q.history| { PopInOrder(cfg, base, q, IndexOfId(q.history, id)); }
    case Clear => ClearInOrder(cfg, base, q);
    case RemoveFromHistory(id) =>
    case Act(i) =>
    case Choose(id, action) =>
    case Flag(i, locked, closeMark, removeMark) =>
      if i < |q.displayed| {
        SetKeepsOrder(cfg, base, q.displayed, i,
                      q.displayed[i].(locked := locked, closeMark := closeMark, removeMark := removeMark));
      }
    case Arrive(_, _, _, _) =>
    case Rework(_, _, _) =>
    case Refresh(_, _, _) =>
  }

  lemma ArriveSortedIff(cfg: Settings, base: int, q: Queues, op: Op)
    requires InOrder(cfg, base, q) && op.Arrive? && StepInWindow(cfg, base, q, op)
    ensures Windowed(cfg, base, Step(cfg, q, op))
    ensures BothSorted(cfg, Step(cfg, q, op)) <==> StepFits(cfg, q, op)
  {
    ArrivalFiled(cfg, base, op.status, q, op.n.(key := q.born), op.now, op.iconChanged);
    ArrivalSortedIff(cfg, base, op.status, q, op.n.(key := q.born), op.now, op.iconChanged);
  }

  /** From queues in order, a step leaves them in order exactly when it fits. */
  lemma StepSortedIff(cfg: Settings, base: int, q: Queues, op: Op)
    requires InOrder(cfg, base, q) && StepInWindow(cfg, base, q, op)
    ensures Windowed(cfg, base, Step(cfg, q, op))
    ensures BothSorted(cfg, Step(cfg, q, op)) <==> StepFits(cfg, q, op)
  {
    match op
    case Arrive(_, _, _, _) => ArriveSortedIff(cfg, base, q, op);
    case Rework(_, _, _) => ReworkSortedIff(cfg, base, q, op);
    case Refresh(status, time, clock) =>
      UpdateKeepsSorted(cfg, base, status, time, clock, q);
      UpdateFiled(cfg, base, status, time, clock, q);
    case _ => QuietStepInOrder(cfg, base, q, op);
  }

  // ---------- runs ----------

  /** Settings that differ from `cfg` in nothing the comparator looks at. */
  predicate SameOrder(cfg: Settings, other: Settings) {
    other.sort == cfg.sort && other.originBottom == cfg.originBottom
  }

  /** The order stays what it is while other settings change. */
  ghost predicate OneOrder(cfg: Settings, steps: seq<(Settings, Op)>) {
    forall s | s in steps :: SameOrder(cfg, s.0)
  }

  /** The queues are in order after every step. */
  ghost predicate AlwaysSorted(cfg: Settings, steps: seq<(Settings, Op)>, q: Queues) {
    BothSorted(cfg, q) && (steps == [] || AlwaysSorted(cfg, steps[1..], Step(steps[0].0, q, steps[0].1)))
  }

  ghost predicate AllFitIn(steps: seq<(Settings, Op)>, q: Queues) {
    || steps == []
    || (StepFits(steps[0].0, q, steps[0].1) && AllFitIn(steps[1..], Step(steps[0].0, q, steps[0].1)))
  }

  /** Every notification of the run is inside the window. */
  ghost predicate StaysInWindow(cfg: Settings, base: int, steps: seq<(Settings, Op)>, q: Queues) {
    || steps == []
    || (&& StepInWindow(cfg, base, q, steps[0].1)
        && StaysInWindow(cfg, base, steps[1..], Step(steps[0].0, q, steps[0].1)))
  }

  lemma SortedAlike(cfg: Settings, other: Settings, s: seq<Note>)
    requires SameOrder(cfg, other)
    ensures Sorted(cfg, s) <==> Sorted(other, s)
  {
    assert forall n :: Rank(cfg, n) == Rank(other, n);
  }

  lemma InOrderAlike(cfg: Settings, other: Settings, base: int, q: Queues)
    requires SameOrder(cfg, other)
    ensures BothSorted(cfg, q) <==> BothSorted(other, q)
    ensures Windowed(cfg, base, q) <==> Windowed(other, base, q)
  {
    SortedAlike(cfg, other, q.displayed);
    SortedAlike(cfg, other, q.waiting);
  }

  lemma StepSortedUnderIff(cfg: Settings, other: Settings, base: int, q: Queues, op: Op)
    requires SameOrder(cfg, other)
    requires InOrder(cfg, base, q) && StepInWindow(cfg, base, q, op)
    ensures Windowed(cfg, base, Step(other, q, op))
    ensures BothSorted(cfg, Step(other, q, op)) <==> StepFits(other, q, op)
  {
    InOrderAlike(cfg, other, base, q);
    assert StepInWindow(other, base, q, op);
    StepSortedIff(other, base, q, op);
    InOrderAlike(cfg, other, base, Step(other, q, op));
  }

  /** The queues of a run are in order after every step exactly when every arrival and every
      change by rules fits where it is put. */
  lemma {:induction false} RunSortedIff(cfg: Settings, base: int, steps: seq<(Settings, Op)>, q: Queues)
    requires InOrder(cfg, base, q) && OneOrder(cfg, steps) && StaysInWindow(cfg, base, steps, q)
    ensures AlwaysSorted(cfg, steps, q) <==> AllFitIn(steps, q)
    ensures AllFitIn(steps, q) ==> InOrder(cfg, base, Run(steps, q))
  {
    if steps != [] {
      var r := Step(steps[0].0, q, steps[0].1);
      assert steps[0] in steps;
      StepSortedUnderIff(cfg, steps[0].0, base, q, steps[0].1);
      if BothSorted(cfg, r) { RunSortedIff(cfg, base, steps[1..], r); }
    }
  }

  /** In a run in which every arrival fits, every update selects the best where no two of the
      displayed and waiting notifications share an id: it shows the first
      of the sorted survivors when nothing of them is held back, and otherwise nothing better
      waits exactly when what is hidden can wait. */
  lemma EveryUpdateSelects(cfg: Settings, base: int, steps: seq<(Settings, Op)>, status: Status, time: int,
                           clock: nat -> int)
    requires IsRun(steps) && OneOrder(cfg, steps) && StaysInWindow(cfg, base, steps, EMPTY)
    requires AllFitIn(steps, EMPTY) && Once(Id, Run(steps, EMPTY))
    requires cfg.sort != SortType.ById && forall k :: time <= clock(k)
    ensures var q := Run(steps, EMPTY);
            var r := Updated(cfg, status, time, clock, q);
            && (Unblocked(Survivors(cfg, status, time, q), status) ==> SortedAndTaken(cfg, status, time, q, r))
            && (NoneOutranked(cfg, status, r) <==> HiddenCanWait(cfg, status, LineUp(cfg, status, time, q)))
  {
    var q := Run(steps, EMPTY);
    EmptyInv();
    RunKeepsSound(steps, EMPTY);
    WhenOnce(q);
    RunSortedIff(cfg, base, steps, EMPTY);
    BestShownIff(cfg, base, status, time, clock, q);
    if Unblocked(Survivors(cfg, status, time, q), status) {
      NothingHeldBackIsSortAndTake(cfg, base, status, time, clock, q);
    }
  }

  // ---------- a replacement out of order ----------

  function Said(key: nat, id: int, urgency: Urgency, summary: string): Note {
    Plain(key, id, urgency, FsShow).(content := TEXT.(summary := summary))
  }

  function Sends(id: int, urgency: Urgency, summary: string): Op {
    Arrive(CALM, Said(0, id, urgency, summary), 0, {})
  }

  function Raise(cfg: Settings): seq<(Settings, Op)> {
    [(cfg, Sends(0, 0, "c")), (cfg, Sends(4, 2, "d"))]
  }

  /** Three notifications of normal and low urgency, the last of which is then raised. */
  function Raising(cfg: Settings): seq<(Settings, Op)> {
    [(cfg, Sends(0, 1, "a")), (cfg, Sends(0, 1, "b"))] + Raise(cfg)
  }

  function Sent(k: nat): Queues {
    var a, b, c := Said(0, 2, 1, "a"), Said(1, 3, 1, "b"), Said(2, 4, 0, "c");
    Queues(if k == 0 then [] else if k == 1 then [a] else if k == 2 then [a, b] else [a, b, c],
           [], [], k + 1, k, [], [])
  }

  function Raised(): Queues {
    Queues([Said(0, 2, 1, "a"), Said(1, 3, 1, "b"), Said(3, 4, 2, "d")], [], [], 4, 4,
           [Dropped(Said(2, 4, 0, "c"), Replaced)], [])
  }

  lemma SendsEnqueues(cfg: Settings, q: Queues, urgency: Urgency, summary: string)
    requires cfg.sort == UrgencyDescending && q.displayed == [] && q.nextId < TWO_31 - 1
    requires forall n | n in q.waiting :: n.content.summary != summary && n.content.stackTag == ""
    ensures var n := Said(q.born, q.nextId + 1, urgency, summary);
            Step(cfg, q, Sends(0, urgency, summary))
            == q.(waiting := InsertSorted(cfg, q.waiting, n), nextId := q.nextId + 1, born := q.born + 1)
  {
    NoDuplicateOf(q.waiting, Said(q.born, q.nextId + 1, urgency, summary));
  }

  lemma {:induction false} NoDuplicateOf(s: seq<Note>, n: Note)
    requires forall m | m in s :: m.content.summary != n.content.summary
    ensures IndexOfDuplicate(s, n, {}) == |s|
  {
    if s != [] { NoDuplicateOf(s[1..], n); }
  }

  lemma SendsLast(cfg: Settings, q: Queues, r: Queues, n: Note, urgency: Urgency, summary: string)
    requires cfg.sort == UrgencyDescending && q.displayed == [] && q.nextId < TWO_31 - 1
    requires forall m | m in q.waiting :: m.content.summary != summary && m.content.stackTag == "" && Cmp(cfg, m, n) < 0
    requires n == Said(q.born, q.nextId + 1, urgency, summary)
    requires r == q.(waiting := q.waiting + [n], nextId := q.nextId + 1, born := q.born + 1)
    ensures Step(cfg, q, Sends(0, urgency, summary)) == r
  {
    SendsEnqueues(cfg, q, urgency, summary);
    InsertLast(cfg, q.waiting, n);
  }

  lemma SendsFirst(cfg: Settings)
    requires cfg.sort == UrgencyDescending
    ensures Step(cfg, EMPTY, Sends(0, 1, "a")) == Sent(1)
  {
    SendsLast(cfg, EMPTY, Sent(1), Said(0, 2, 1, "a"), 1, "a");
  }

  lemma SendsSecond(cfg: Settings)
    requires cfg.sort == UrgencyDescending
    ensures Step(cfg, Sent(1), Sends(0, 1, "b")) == Sent(2)
  {
    SendsLast(cfg, Sent(1), Sent(2), Said(1, 3, 1, "b"), 1, "b");
  }

  lemma SendsThird(cfg: Settings)
    requires cfg.sort == UrgencyDescending
    ensures Step(cfg, Sent(2), Sends(0, 0, "c")) == Sent(3)
  {
    SendsLast(cfg, Sent(2), Sent(3), Said(2, 4, 0, "c"), 0, "c");
  }

  lemma {:induction false} InsertLast(cfg: Settings, s: seq<Note>, n: Note)
    requires forall m | m in s :: Cmp(cfg, m, n) < 0
    ensures InsertSorted(cfg, s, n) == s + [n]
  {
    if s != [] { InsertLast(cfg, s[1..], n); }
  }

  lemma RaisesInPlace(cfg: Settings)
    ensures Step(cfg, Sent(3), Sends(4, 2, "d")) == Raised()
  {
    var q, n := Sent(3), Said(3, 4, 2, "d");
    assert q.waiting[0].id == 2 && q.waiting[1].id == 3 && q.waiting[2].id == 4;
    assert IndexOfId(q.waiting, 4) == 2;
    assert ReplaceIdSlot(q, 4) == InWaiting(2);
    assert q.waiting[2 := n] == Raised().waiting;
    NotifyInserts(cfg, CALM, q, n, 0, {});
  }

  ghost predicate Leads(cfg: Settings, steps: seq<(Settings, Op)>, q: Queues, r: Queues) {
    IsRun(steps) && AllAskSafely(steps, q) && StaysInWindow(cfg, 0, steps, q) && Run(steps, q) == r
  }

  lemma LeadsOn(cfg: Settings, op: Op, rest: seq<(Settings, Op)>, q: Queues, mid: Queues, r: Queues)
    requires Admissible(op) && AsksSafely(q, op) && StepInWindow(cfg, 0, q, op)
    requires Step(cfg, q, op) == mid && Leads(cfg, rest, mid, r)
    ensures Leads(cfg, [(cfg, op)] + rest, q, r)
  {
    assert ([(cfg, op)] + rest)[1..] == rest;
  }

  lemma LeadsTwice(cfg: Settings, a: Op, b: Op, rest: seq<(Settings, Op)>, q: Queues, s: Queues, t: Queues, r: Queues)
    requires Admissible(a) && AsksSafely(q, a) && StepInWindow(cfg, 0, q, a) && Step(cfg, q, a) == s
    requires Admissible(b) && AsksSafely(s, b) && StepInWindow(cfg, 0, s, b) && Step(cfg, s, b) == t
    requires Leads(cfg, rest, t, r)
    ensures Leads(cfg, [(cfg, a), (cfg, b)] + rest, q, r)
  {
    LeadsOn(cfg, b, rest, s, t, r);
    LeadsOn(cfg, a, [(cfg, b)] + rest, q, s, r);
    assert [(cfg, a), (cfg, b)] + rest == [(cfg, a)] + ([(cfg, b)] + rest);
  }

  lemma RaiseRuns(cfg: Settings)
    requires cfg.sort == UrgencyDescending
    ensures Leads(cfg, Raise(cfg), Sent(2), Raised())
  {
    SendsThird(cfg);
    RaisesInPlace(cfg);
    LeadsTwice(cfg, Sends(0, 0, "c"), Sends(4, 2, "d"), [], Sent(2), Sent(3), Raised(), Raised());
    assert Raise(cfg) == [(cfg, Sends(0, 0, "c")), (cfg, Sends(4, 2, "d"))] + [];
  }

  lemma RaisingRuns(cfg: Settings)
    requires cfg.sort == UrgencyDescending
    ensures Leads(cfg, Raising(cfg), EMPTY, Raised())
  {
    SendsFirst(cfg);
    SendsSecond(cfg);
    RaiseRuns(cfg);
    LeadsTwice(cfg, Sends(0, 1, "a"), Sends(0, 1, "b"), Raise(cfg), EMPTY, Sent(1), Sent(2), Raised());
  }

  lemma RaisedUpdate(cfg: Settings)
    requires cfg.sort == UrgencyDescending && cfg.notificationLimit == 1
    ensures var q := Raised();
            Updated(cfg, CALM, 0, _ => 0, q) == q.(displayed := [q.waiting[0]], waiting := [q.waiting[1], q.waiting[2]])
  {
    var q, clock: nat -> int := Raised(), _ => 0;
    var r := q.(displayed := [q.waiting[0]], waiting := [q.waiting[1], q.waiting[2]]);
    assert AfterSweep(cfg, CALM, 0, clock, q) == q;
    assert RemoveAt(q.waiting, 0) == r.waiting;
    assert ToDisplayed(cfg, q, 0, 0) == r;
    assert PromoteStep(cfg, CALM, 0, q, 0) == (r, 0);
    assert AfterPromote(cfg, CALM, 0, clock, q) == r;
    assert AfterTrim(cfg, CALM, 0, clock, q) == r;
    assert !Seeps(cfg, CALM, r);
  }

  lemma RaisedOutOfOrder(cfg: Settings)
    requires cfg.sort == UrgencyDescending
    ensures !Sorted(cfg, Raised().waiting) && Unblocked(Raised().waiting, CALM)
    ensures forall r: Queues | r.displayed == [Raised().waiting[0]] && Raised().waiting[2] in r.waiting ::
              !NoneOutranked(cfg, CALM, r)
  {
    var q := Raised();
    assert Rank(cfg, q.waiting[2]) < Rank(cfg, q.waiting[0]);
    forall r: Queues | r.displayed == [q.waiting[0]] && q.waiting[2] in r.waiting ensures !NoneOutranked(cfg, CALM, r) {
      assert r.displayed[0] in r.displayed;
    }
  }

  /** A client may raise a waiting notification to critical, and it stays where it was: with
      nothing held back, the next update shows a notification of normal urgency, and the
      critical one waits. */
  lemma RaisedButNotShown(cfg: Settings)
    requires cfg.sort == UrgencyDescending && cfg.notificationLimit == 1
    ensures var q := Run(Raising(cfg), EMPTY);
            var r := Updated(cfg, CALM, 0, _ => 0, q);
            && IsRun(Raising(cfg)) && AllAskSafely(Raising(cfg), EMPTY)
            && StaysInWindow(cfg, 0, Raising(cfg), EMPTY)
            && !Sorted(cfg, q.waiting) && Unblocked(q.waiting, CALM)
            && r.displayed == [Said(0, 2, 1, "a")] && Said(3, 4, 2, "d") in r.waiting
            && !NoneOutranked(cfg, CALM, r)
  {
    var q := Raised();
    RaisingRuns(cfg);
    RaisedUpdate(cfg);
    RaisedOutOfOrder(cfg);
    assert [q.waiting[1], q.waiting[2]][1] == Said(3, 4, 2, "d");
  }
}
