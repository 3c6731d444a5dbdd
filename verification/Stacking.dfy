/** What an arrival means for the fields of the notifications: which live notification it takes the
    place of, and what becomes of it when there is none (queues_notification_insert,
    queues_stack_by_tag, queues_stack_duplicate and queues_notification_replace_id). */
module Stacking {
  import opened Notifications
  import opened SortedQueue
  import opened QueueSpec
  import opened Conservation
  import opened Arrival
  import opened Closing
  import opened Signals

  // ---------- what counts as the same ----------

  /** Icons differ only where both sides show one: then by id if both know theirs, else by name. */
  predicate IconsAgree(a: Content, b: Content) {
    || a.iconPosition == IconOff
    || b.iconPosition == IconOff
    || (a.iconId.Some? && b.iconId.Some? && a.iconId == b.iconId)
    || (!(a.iconId.Some? && b.iconId.Some?)
        && (a.iconName.None? || b.iconName.None? || a.iconName == b.iconName))
  }

  /** The held notification says what the arriving one says, and its icon file did not change. */
  predicate SaysTheSame(h: Note, n: Note, iconChanged: set<nat>) {
    && h.content.appname == n.content.appname
    && h.content.summary == n.content.summary
    && h.content.body == n.content.body
    && h.urgency == n.urgency
    && IconsAgree(h.content, n.content)
    && h.key !in iconChanged
  }

  predicate SameTag(h: Note, n: Note) {
    && n.content.stackTag != ""
    && h.content.stackTag == n.content.stackTag
    && h.content.appname == n.content.appname
  }

  /** The first that says the same. */
  ghost predicate FirstSame(s: seq<Note>, i: nat, n: Note, iconChanged: set<nat>) {
    && i < |s| && SaysTheSame(s[i], n, iconChanged)
    && forall j | 0 <= j < i :: !SaysTheSame(s[j], n, iconChanged)
  }

  ghost predicate NoneSame(s: seq<Note>, n: Note, iconChanged: set<nat>) {
    forall h | h in s :: !SaysTheSame(h, n, iconChanged)
  }

  /** The first with the tag. */
  ghost predicate FirstTagged(s: seq<Note>, i: nat, n: Note) {
    i < |s| && SameTag(s[i], n) && forall j | 0 <= j < i :: !SameTag(s[j], n)
  }

  ghost predicate NoneTagged(s: seq<Note>, n: Note) {
    forall h | h in s :: !SameTag(h, n)
  }

  lemma {:induction false} IndexOfDuplicateIsFirst(s: seq<Note>, n: Note, iconChanged: set<nat>)
    ensures var i := IndexOfDuplicate(s, n, iconChanged);
            if i < |s| then FirstSame(s, i, n, iconChanged) else NoneSame(s, n, iconChanged)
  {
    if s != [] && !SaysTheSame(s[0], n, iconChanged) {
      var i := IndexOfDuplicate(s[1..], n, iconChanged);
      IndexOfDuplicateIsFirst(s[1..], n, iconChanged);
      assert forall j | 0 < j < |s| :: s[j] == s[1..][j - 1];
    }
  }

  lemma {:induction false} IndexOfTagIsFirst(s: seq<Note>, n: Note)
    requires n.content.stackTag != ""
    ensures var i := IndexOfTag(s, n); if i < |s| then FirstTagged(s, i, n) else NoneTagged(s, n)
  {
    if s != [] && !SameTag(s[0], n) {
      IndexOfTagIsFirst(s[1..], n);
      assert forall j | 0 < j < |s| :: s[j] == s[1..][j - 1];
    }
  }

  /** Where stacking looks, for an arrival under another id. */
  lemma TagFound(s: seq<Note>, n: Note, id: int)
    requires n.content.stackTag != ""
    ensures var i := IndexOfTag(s, n.(id := id)); if i < |s| then FirstTagged(s, i, n) else NoneTagged(s, n)
  {
    IndexOfTagIsFirst(s, n.(id := id));
  }

  lemma DuplicateFound(s: seq<Note>, n: Note, id: int, iconChanged: set<nat>)
    ensures var i := IndexOfDuplicate(s, n.(id := id), iconChanged);
            if i < |s| then FirstSame(s, i, n, iconChanged) else NoneSame(s, n, iconChanged)
  {
    IndexOfDuplicateIsFirst(s, n.(id := id), iconChanged);
  }

  // ---------- an arrival under a new id ----------

  /** The arrival has text, gets its id from the counter, and fullscreen mode does not suppress it. */
  predicate IsNew(status: Status, n: Note) {
    n.id == 0 && n.content.msg != "" && !(status.fullscreen && n.fullscreen == FsSuppress)
  }

  lemma NewIsPlaced(cfg: Settings, status: Status, q: Queues, n: Note, now: int, iconChanged: set<nat>)
    requires IsNew(status, n)
    ensures Notify(cfg, status, q, n, now, iconChanged)
            == PlaceNew(cfg, q.(born := q.born + 1, nextId := q.nextId + 1), n.(id := q.nextId + 1), now, iconChanged)
  {
    NotifyInserts(cfg, status, q, n, now, iconChanged);
    PlacesNew(cfg, q.(born := q.born + 1), n, now, iconChanged);
  }

  /** What stacking leaves in displayed. */
  ghost predicate StackedAt(s: seq<Note>, i: nat, m: Note, sorted: bool, r: seq<Note>)
    requires i < |s|
  {
    && |r| == |s|
    && (if sorted then forall x :: x in r <==> x in s[i := m] else r == s[i := m])
  }

  /** The rest of what stacking does. */
  ghost predicate LetsGo(q: Queues, h: Note, r: Queues) {
    && r.nextId == q.nextId + 1 && r.born == q.born + 1 && r.history == q.history
    && r.dropped == q.dropped + [Dropped(Told(h), Stacked)]
    && r.log == q.log + (if h.dbusValid then [Closed(h.key, h.id, 1)] else [])
  }

  lemma StackInSlot(q: Queues, n: Note, count: int, now: int, i: nat)
    ensures i < |q.displayed| ==>
              var h := q.displayed[i];
              StackIn(q, InDisplayed(i), n, count, now)
              == q.(displayed := q.displayed[i := n.(dupCount := count, start := now)],
                    dropped := q.dropped + [Dropped(Told(h), Stacked)],
                    log := q.log + (if h.dbusValid then [Closed(h.key, h.id, 1)] else []))
    ensures i < |q.waiting| ==>
              var h := q.waiting[i];
              StackIn(q, InWaiting(i), n, count, now)
              == q.(waiting := q.waiting[i := n.(dupCount := count)],
                    dropped := q.dropped + [Dropped(Told(h), Stacked)],
                    log := q.log + (if h.dbusValid then [Closed(h.key, h.id, 1)] else []))
  {
  }

  lemma TagSlotIs(q: Queues, n: Note, id: int, i: nat)
    ensures FirstTagged(q.displayed, i, n) ==> TagSlot(q, n.(id := id)) == InDisplayed(i)
    ensures NoneTagged(q.displayed, n) && FirstTagged(q.waiting, i, n) ==> TagSlot(q, n.(id := id)) == InWaiting(i)
  {
    if n.content.stackTag != "" {
      TagFound(q.displayed, n, id);
      TagFound(q.waiting, n, id);
    }
  }

  lemma NewStacksByTag(cfg: Settings, status: Status, q: Queues, n: Note, now: int, iconChanged: set<nat>, s: Slot)
    requires IsNew(status, n) && n.content.stackTag != "" && !s.NoSlot? && SlotOf(q, s)
    requires TagSlot(q.(born := q.born + 1, nextId := q.nextId + 1), n.(id := q.nextId + 1)) == s
    ensures var q2 := q.(born := q.born + 1, nextId := q.nextId + 1);
            Notify(cfg, status, q, n, now, iconChanged)
            == StackIn(q2, s, n.(id := q.nextId + 1), NoteIn(q2, s).dupCount, now)
  {
    NewIsPlaced(cfg, status, q, n, now, iconChanged);
  }

  /** One with the tag on screen: the first such gives its row to the arrival, which starts now
      and takes over the count; the client of the old one is told that it timed out. */
  lemma StacksByTagOnScreen(cfg: Settings, status: Status, q: Queues, n: Note, now: int, iconChanged: set<nat>, i: nat)
    requires IsNew(status, n) && FirstTagged(q.displayed, i, n)
    ensures var r, h := Notify(cfg, status, q, n, now, iconChanged), q.displayed[i];
            && r.displayed == q.displayed[i := n.(id := q.nextId + 1).(dupCount := h.dupCount, start := now)]
            && r.waiting == q.waiting && LetsGo(q, h, r)
  {
    var q2 := q.(born := q.born + 1, nextId := q.nextId + 1);
    TagSlotIs(q2, n, q.nextId + 1, i);
    NewStacksByTag(cfg, status, q, n, now, iconChanged, InDisplayed(i));
    StackInSlot(q2, n.(id := q.nextId + 1), q.displayed[i].dupCount, now, i);
  }

  lemma StacksByTagWaiting(cfg: Settings, status: Status, q: Queues, n: Note, now: int, iconChanged: set<nat>, i: nat)
    requires IsNew(status, n) && NoneTagged(q.displayed, n) && FirstTagged(q.waiting, i, n)
    ensures var r, h := Notify(cfg, status, q, n, now, iconChanged), q.waiting[i];
            && r.waiting == q.waiting[i := n.(id := q.nextId + 1).(dupCount := h.dupCount)]
            && r.displayed == q.displayed && LetsGo(q, h, r)
  {
    var q2 := q.(born := q.born + 1, nextId := q.nextId + 1);
    TagSlotIs(q2, n, q.nextId + 1, i);
    NewStacksByTag(cfg, status, q, n, now, iconChanged, InWaiting(i));
    StackInSlot(q2, n.(id := q.nextId + 1), q.waiting[i].dupCount, now, i);
  }

  /** Stacked, the count goes up by one exactly when the progress is equal. */
  function CountAfter(h: Note, n: Note): int {
    if h.content.progress == n.content.progress then h.dupCount + 1 else h.dupCount
  }

  lemma TagLeadsNowhere(q: Queues, n: Note)
    requires NoneTagged(q.displayed, n) && NoneTagged(q.waiting, n)
    ensures n.content.stackTag != "" ==>
              TagSlot(q.(born := q.born + 1, nextId := q.nextId + 1), n.(id := q.nextId + 1)).NoSlot?
  {
    if n.content.stackTag != "" {
      TagFound(q.displayed, n, q.nextId + 1);
      TagFound(q.waiting, n, q.nextId + 1);
    }
  }

  lemma StacksIntoSlot(cfg: Settings, q: Queues, n: Note, now: int, iconChanged: set<nat>, s: Slot)
    requires n.content.stackTag != "" ==> TagSlot(q, n).NoSlot?
    requires cfg.stackDuplicates && !s.NoSlot? && DuplicateSlot(q, n, iconChanged) == s
    ensures SlotOf(q, s)
    ensures var r := StackIn(q, s, n, CountAfter(NoteIn(q, s), n), now);
            PlaceNew(cfg, q, n, now, iconChanged)
            == if cfg.sort == ByUpdate then r.(displayed := StableSort(cfg, r.displayed)) else r
  {
  }

  lemma DuplicateSlotIs(q: Queues, n: Note, id: int, iconChanged: set<nat>, i: nat)
    ensures FirstSame(q.displayed, i, n, iconChanged) ==>
              DuplicateSlot(q, n.(id := id), iconChanged) == InDisplayed(i)
    ensures NoneSame(q.displayed, n, iconChanged) && FirstSame(q.waiting, i, n, iconChanged) ==>
              DuplicateSlot(q, n.(id := id), iconChanged) == InWaiting(i)
  {
    DuplicateFound(q.displayed, n, id, iconChanged);
    DuplicateFound(q.waiting, n, id, iconChanged);
  }

  lemma NewStacks(cfg: Settings, status: Status, q: Queues, n: Note, now: int, iconChanged: set<nat>, s: Slot)
    requires IsNew(status, n) && NoneTagged(q.displayed, n) && NoneTagged(q.waiting, n) && cfg.stackDuplicates
    requires !s.NoSlot? && SlotOf(q, s)
    requires var q2, n' := q.(born := q.born + 1, nextId := q.nextId + 1), n.(id := q.nextId + 1);
             DuplicateSlot(q2, n', iconChanged) == s
    ensures var q2, n' := q.(born := q.born + 1, nextId := q.nextId + 1), n.(id := q.nextId + 1);
            var r := StackIn(q2, s, n', CountAfter(NoteIn(q2, s), n'), now);
            Notify(cfg, status, q, n, now, iconChanged)
            == if cfg.sort == ByUpdate then r.(displayed := StableSort(cfg, r.displayed)) else r
  {
    var q2, n' := q.(born := q.born + 1, nextId := q.nextId + 1), n.(id := q.nextId + 1);
    NewIsPlaced(cfg, status, q, n, now, iconChanged);
    TagLeadsNowhere(q, n);
    StacksIntoSlot(cfg, q2, n', now, iconChanged, s);
  }

  lemma OnScreenShape(cfg: Settings, q: Queues, n: Note, count: int, now: int, i: nat, r: Queues)
    requires i < |q.displayed|
    requires var t := StackIn(q.(born := q.born + 1, nextId := q.nextId + 1), InDisplayed(i), n, count, now);
             r == if cfg.sort == ByUpdate then t.(displayed := StableSort(cfg, t.displayed)) else t
    ensures && StackedAt(q.displayed, i, n.(dupCount := count, start := now), cfg.sort == ByUpdate, r.displayed)
            && r.waiting == q.waiting && LetsGo(q, q.displayed[i], r)
  {
    StackInSlot(q.(born := q.born + 1, nextId := q.nextId + 1), n, count, now, i);
    SortMembers(cfg, q.displayed[i := n.(dupCount := count, start := now)]);
  }

  lemma WaitingShape(cfg: Settings, q: Queues, n: Note, count: int, now: int, i: nat, r: Queues)
    requires i < |q.waiting|
    requires var t := StackIn(q.(born := q.born + 1, nextId := q.nextId + 1), InWaiting(i), n, count, now);
             r == if cfg.sort == ByUpdate then t.(displayed := StableSort(cfg, t.displayed)) else t
    ensures && r.waiting == q.waiting[i := n.(dupCount := count)] && LetsGo(q, q.waiting[i], r)
            && |r.displayed| == |q.displayed| && forall x :: x in r.displayed <==> x in q.displayed
  {
    StackInSlot(q.(born := q.born + 1, nextId := q.nextId + 1), n, count, now, i);
    SortMembers(cfg, q.displayed);
  }

  /** No tag leads anywhere, and the first on screen that says the same gives up its row. In update
      order displayed is sorted again. */
  lemma StacksDuplicateOnScreen(cfg: Settings, status: Status, q: Queues, n: Note, now: int, iconChanged: set<nat>,
                                i: nat)
    requires IsNew(status, n) && NoneTagged(q.displayed, n) && NoneTagged(q.waiting, n)
    requires cfg.stackDuplicates && FirstSame(q.displayed, i, n, iconChanged)
    ensures var r, h := Notify(cfg, status, q, n, now, iconChanged), q.displayed[i];
            var count := if h.content.progress == n.content.progress then h.dupCount + 1 else h.dupCount;
            && StackedAt(q.displayed, i, n.(id := q.nextId + 1).(dupCount := count, start := now),
                         cfg.sort == ByUpdate, r.displayed)
            && r.waiting == q.waiting && LetsGo(q, h, r)
  {
    var q2, n' := q.(born := q.born + 1, nextId := q.nextId + 1), n.(id := q.nextId + 1);
    DuplicateSlotIs(q2, n, q.nextId + 1, iconChanged, i);
    NewStacks(cfg, status, q, n, now, iconChanged, InDisplayed(i));
    OnScreenShape(cfg, q, n', CountAfter(q.displayed[i], n'), now, i, Notify(cfg, status, q, n, now, iconChanged));
  }

  lemma SortedByTime(cfg: Settings, base: int, s: seq<Note>, r: seq<Note>)
    requires AllInWindow(cfg, base, s) && cfg.sort == ByUpdate && r == StableSort(cfg, s)
    ensures forall j, k | 0 <= j < k < |r| ::
              if cfg.originBottom then r[j].timestamp <= r[k].timestamp else r[j].timestamp >= r[k].timestamp
  {
    SortSorts(cfg, base, s);
  }

  lemma SortedStack(cfg: Settings, q: Queues, n: Note, count: int, now: int, i: nat, r: Queues)
    requires i < |q.displayed| && cfg.sort == ByUpdate
    requires var t := StackIn(q.(born := q.born + 1, nextId := q.nextId + 1), InDisplayed(i), n, count, now);
             r == t.(displayed := StableSort(cfg, t.displayed))
    ensures r.displayed == StableSort(cfg, q.displayed[i := n.(dupCount := count, start := now)])
  {
    StackInSlot(q.(born := q.born + 1, nextId := q.nextId + 1), n, count, now, i);
  }

  lemma StackIsSorted(cfg: Settings, status: Status, q: Queues, n: Note, now: int, iconChanged: set<nat>, i: nat,
                      m: Note)
    requires IsNew(status, n) && NoneTagged(q.displayed, n) && NoneTagged(q.waiting, n)
    requires cfg.stackDuplicates && FirstSame(q.displayed, i, n, iconChanged) && cfg.sort == ByUpdate
    requires var n' := n.(id := q.nextId + 1);
             m == n'.(dupCount := CountAfter(q.displayed[i], n'), start := now)
    ensures Notify(cfg, status, q, n, now, iconChanged).displayed == StableSort(cfg, q.displayed[i := m])
  {
    var n' := n.(id := q.nextId + 1);
    DuplicateSlotIs(q.(born := q.born + 1, nextId := q.nextId + 1), n, q.nextId + 1, iconChanged, i);
    NewStacks(cfg, status, q, n, now, iconChanged, InDisplayed(i));
    SortedStack(cfg, q, n', CountAfter(q.displayed[i], n'), now, i, Notify(cfg, status, q, n, now, iconChanged));
  }

  lemma RowInWindow(cfg: Settings, base: int, s: seq<Note>, i: nat, n: Note, m: Note)
    requires i < |s| && AllInWindow(cfg, base, s) && InWindow(cfg, base, n) && SameSortKey(n, m)
    ensures AllInWindow(cfg, base, s[i := m])
  {
  }

  /** In update order the screen is in order afterwards, wherever the row was. */
  lemma StackedInUpdateOrder(cfg: Settings, base: int, status: Status, q: Queues, n: Note, now: int,
                             iconChanged: set<nat>, i: nat)
    requires IsNew(status, n) && NoneTagged(q.displayed, n) && NoneTagged(q.waiting, n)
    requires cfg.stackDuplicates && FirstSame(q.displayed, i, n, iconChanged) && cfg.sort == ByUpdate
    requires AllInWindow(cfg, base, q.displayed) && InWindow(cfg, base, n.(id := q.nextId + 1))
    ensures var d := Notify(cfg, status, q, n, now, iconChanged).displayed;
            forall j, k | 0 <= j < k < |d| ::
              if cfg.originBottom then d[j].timestamp <= d[k].timestamp else d[j].timestamp >= d[k].timestamp
  {
    var n' := n.(id := q.nextId + 1);
    var m := n'.(dupCount := CountAfter(q.displayed[i], n'), start := now);
    StackIsSorted(cfg, status, q, n, now, iconChanged, i, m);
    RowInWindow(cfg, base, q.displayed, i, n.(id := q.nextId + 1), m);
    SortedByTime(cfg, base, q.displayed[i := m], Notify(cfg, status, q, n, now, iconChanged).displayed);
  }

  lemma StacksDuplicateWaiting(cfg: Settings, status: Status, q: Queues, n: Note, now: int, iconChanged: set<nat>,
                               i: nat)
    requires IsNew(status, n) && NoneTagged(q.displayed, n) && NoneTagged(q.waiting, n)
    requires cfg.stackDuplicates && NoneSame(q.displayed, n, iconChanged) && FirstSame(q.waiting, i, n, iconChanged)
    ensures var r, h := Notify(cfg, status, q, n, now, iconChanged), q.waiting[i];
            var count := if h.content.progress == n.content.progress then h.dupCount + 1 else h.dupCount;
            && r.waiting == q.waiting[i := n.(id := q.nextId + 1).(dupCount := count)] && LetsGo(q, h, r)
            && |r.displayed| == |q.displayed| && forall x :: x in r.displayed <==> x in q.displayed
  {
    var q2, n' := q.(born := q.born + 1, nextId := q.nextId + 1), n.(id := q.nextId + 1);
    DuplicateSlotIs(q2, n, q.nextId + 1, iconChanged, i);
    NewStacks(cfg, status, q, n, now, iconChanged, InWaiting(i));
    WaitingShape(cfg, q, n', CountAfter(q.waiting[i], n'), now, i, Notify(cfg, status, q, n, now, iconChanged));
  }

  /** Nothing to stack on: the arrival waits, and nobody else is touched or told anything. */
  lemma QueuesWhenAlone(cfg: Settings, status: Status, q: Queues, n: Note, now: int, iconChanged: set<nat>)
    requires IsNew(status, n) && NoneTagged(q.displayed, n) && NoneTagged(q.waiting, n)
    requires cfg.stackDuplicates ==> NoneSame(q.displayed, n, iconChanged) && NoneSame(q.waiting, n, iconChanged)
    ensures var r, m := Notify(cfg, status, q, n, now, iconChanged), n.(id := q.nextId + 1);
            && r == q.(nextId := q.nextId + 1, born := q.born + 1, waiting := r.waiting)
            && |r.waiting| == |q.waiting| + 1 && (forall x :: x in r.waiting <==> x == m || x in q.waiting)
  {
    NewIsPlaced(cfg, status, q, n, now, iconChanged);
    DuplicateFound(q.displayed, n, q.nextId + 1, iconChanged);
    DuplicateFound(q.waiting, n, q.nextId + 1, iconChanged);
    TagLeadsNowhere(q, n);
    InsertMembers(cfg, q.waiting, n.(id := q.nextId + 1));
  }

  // ---------- an arrival under the client's id ----------

  ghost predicate FirstWithId(s: seq<Note>, i: nat, id: int) {
    i < |s| && s[i].id == id && forall j | 0 <= j < i :: s[j].id != id
  }

  ghost predicate NoneWithId(s: seq<Note>, id: int) {
    forall n | n in s :: n.id != id
  }

  lemma FoundById(s: seq<Note>, id: int)
    ensures var i := IndexOfId(s, id); if i < |s| then FirstWithId(s, i, id) else NoneWithId(s, id)
  {
  }

  /** The first holder of the id gives its place to the arrival, which takes over the count; the
      client keeps the id, so it is told nothing. */
  lemma ReplacesOnScreen(cfg: Settings, status: Status, q: Queues, n: Note, now: int, iconChanged: set<nat>, i: nat)
    requires n.id != 0 && n.content.msg != "" && !(status.fullscreen && n.fullscreen == FsSuppress)
    requires FirstWithId(q.displayed, i, n.id)
    ensures var h := q.displayed[i];
            Notify(cfg, status, q, n, now, iconChanged)
            == q.(displayed := q.displayed[i := n.(dupCount := h.dupCount, start := now)], born := q.born + 1,
                  dropped := q.dropped + [Dropped(h, Replaced)])
  {
    NotifyInserts(cfg, status, q, n, now, iconChanged);
    FoundById(q.displayed, n.id);
  }

  lemma ReplacesWaiting(cfg: Settings, status: Status, q: Queues, n: Note, now: int, iconChanged: set<nat>, i: nat)
    requires n.id != 0 && n.content.msg != "" && !(status.fullscreen && n.fullscreen == FsSuppress)
    requires NoneWithId(q.displayed, n.id) && FirstWithId(q.waiting, i, n.id)
    ensures var h := q.waiting[i];
            Notify(cfg, status, q, n, now, iconChanged)
            == q.(waiting := q.waiting[i := n.(dupCount := h.dupCount)], born := q.born + 1,
                  dropped := q.dropped + [Dropped(h, Replaced)])
  {
    NotifyInserts(cfg, status, q, n, now, iconChanged);
    FoundById(q.displayed, n.id);
    FoundById(q.waiting, n.id);
  }

  /** An id that nobody holds is assigned all the same, and the counter stays where it is. */
  lemma TakesFreeId(cfg: Settings, status: Status, q: Queues, n: Note, now: int, iconChanged: set<nat>)
    requires n.id != 0 && n.content.msg != "" && !(status.fullscreen && n.fullscreen == FsSuppress)
    requires NoneWithId(q.displayed, n.id) && NoneWithId(q.waiting, n.id)
    ensures var r := Notify(cfg, status, q, n, now, iconChanged);
            && r == q.(born := q.born + 1, waiting := r.waiting)
            && |r.waiting| == |q.waiting| + 1 && (forall x :: x in r.waiting <==> x == n || x in q.waiting)
  {
    NotifyInserts(cfg, status, q, n, now, iconChanged);
    FoundById(q.displayed, n.id);
    FoundById(q.waiting, n.id);
    InsertMembers(cfg, q.waiting, n);
  }

  // ---------- an arrival that is not kept ----------

  /** Without text nothing changes but that the arrival is let go; its client is told that it was
      dismissed. */
  lemma RefusedWithoutText(cfg: Settings, status: Status, q: Queues, n: Note, now: int, iconChanged: set<nat>)
    requires n.content.msg == ""
    ensures Notify(cfg, status, q, n, now, iconChanged)
            == q.(born := q.born + 1, dropped := q.dropped + [Dropped(Told(n), Skipped)],
                  log := q.log + (if n.dbusValid then [Closed(n.key, n.id, 2)] else []))
  {
  }

  lemma NotifySuppresses(cfg: Settings, status: Status, q: Queues, n: Note, now: int, iconChanged: set<nat>)
    requires n.content.msg != ""
    ensures var q1 := q.(born := q.born + 1);
            Notify(cfg, status, q, n, now, iconChanged)
            == CloseSuppressed(cfg, status, Place(cfg, q1, n, now, iconChanged), n, AssignedId(q1, n))
  {
    NotifyInserts(cfg, status, q, n, now, iconChanged);
  }

  /** The notification is live under the id, apart from its count and its start. */
  ghost predicate IsLive(q: Queues, n: Note) {
    exists m :: (m in q.displayed || m in q.waiting) && SameIdentity(n, m)
  }

  lemma SlotTaken(q: Queues, s: Slot, n: Note, dupCount: int, now: int)
    requires SlotOf(q, s) && !s.NoSlot?
    ensures IsLive(TakeSlot(q, s, n, dupCount, now), n)
  {
    var n' := n.(dupCount := dupCount);
    match s
    case InDisplayed(i) =>
      assert q.displayed[i := n'.(start := now)][i] == n'.(start := now);
      assert n'.(start := now) in q.displayed[i := n'.(start := now)];
    case InWaiting(i) =>
      assert q.waiting[i := n'][i] == n';
      assert n' in q.waiting[i := n'];
  }

  lemma InsertedIsLive(cfg: Settings, q: Queues, n: Note)
    ensures IsLive(q.(waiting := InsertSorted(cfg, q.waiting, n)), n)
  {
    InsertMembers(cfg, q.waiting, n);
    assert n in InsertSorted(cfg, q.waiting, n);
  }

  lemma LiveIfSorted(cfg: Settings, q: Queues, n: Note)
    requires IsLive(q, n)
    ensures IsLive(q.(displayed := StableSort(cfg, q.displayed)), n)
  {
    SortMembers(cfg, q.displayed);
    var m :| (m in q.displayed || m in q.waiting) && SameIdentity(n, m);
    assert m in StableSort(cfg, q.displayed) || m in q.waiting;
  }

  lemma LiveIfSameQueues(q: Queues, r: Queues, n: Note)
    requires IsLive(q, n) && r.displayed == q.displayed && r.waiting == q.waiting
    ensures IsLive(r, n)
  {
  }

  lemma StackedIsLive(q: Queues, s: Slot, n: Note, dupCount: int, now: int)
    requires SlotOf(q, s) && !s.NoSlot?
    ensures IsLive(StackIn(q, s, n, dupCount, now), n) && IsLive(ReplaceIn(q, s, n, now), n)
  {
    var l := q.(log := LogClosed(q.log, NoteIn(q, s), REASON_TIME));
    SlotTaken(l, s, n, dupCount, now);
    LiveIfSameQueues(TakeSlot(l, s, n, dupCount, now), StackIn(q, s, n, dupCount, now), n);
    SlotTaken(q, s, n, NoteIn(q, s).dupCount, now);
    LiveIfSameQueues(TakeSlot(q, s, n, NoteIn(q, s).dupCount, now), ReplaceIn(q, s, n, now), n);
  }

  lemma PlacedNewIsLive(cfg: Settings, q: Queues, n: Note, now: int, iconChanged: set<nat>)
    ensures IsLive(PlaceNew(cfg, q, n, now, iconChanged), n)
  {
    var byTag, byDup := TagSlot(q, n), DuplicateSlot(q, n, iconChanged);
    InsertedIsLive(cfg, q, n);
    if n.content.stackTag != "" && !byTag.NoSlot? {
      StackedIsLive(q, byTag, n, NoteIn(q, byTag).dupCount, now);
    } else if cfg.stackDuplicates && !byDup.NoSlot? {
      var d := DuplicateCount(NoteIn(q, byDup), n);
      StackedIsLive(q, byDup, n, d, now);
      LiveIfSorted(cfg, StackIn(q, byDup, n, d, now), n);
    }
  }

  lemma PlacedIsLive(cfg: Settings, q: Queues, n: Note, now: int, iconChanged: set<nat>)
    ensures IsLive(Place(cfg, q, n, now, iconChanged), n.(id := if n.id != 0 then n.id else q.nextId + 1))
  {
    if n.id != 0 {
      var s := ReplaceIdSlot(q, n.id);
      InsertedIsLive(cfg, q, n);
      if !s.NoSlot? { StackedIsLive(q, s, n, 0, now); }
      assert n.(id := n.id) == n;
    } else {
      PlacesNew(cfg, q, n, now, iconChanged);
      PlacedNewIsLive(cfg, q.(nextId := q.nextId + 1), n.(id := q.nextId + 1), now, iconChanged);
    }
  }

  lemma SuppressedIsTold(cfg: Settings, p: Queues, n: Note)
    requires Sound(p) && Once(Id, p) && IsLive(p, n) && !n.redisplayed
    ensures var r := CloseId(cfg, p, n.id, REASON_UNDEF);
            && r.log == p.log + (if n.dbusValid then [Closed(n.key, n.id, 4)] else [])
            && !LiveKey(r, n.key)
  {
    var m :| (m in p.displayed || m in p.waiting) && SameIdentity(n, m);
    CloseTells(cfg, p, m, REASON_UNDEF);
    WhenOnce(p);
    CloseEndsKey(cfg, p, m, REASON_UNDEF);
  }

  lemma PlacedToBeClosed(cfg: Settings, q: Queues, n: Note, now: int, iconChanged: set<nat>, id: int, p: Queues)
    requires Inv(q) && n.key == q.born && Fresh(n) && IdIsSafe(q, n.id)
    requires p == Place(cfg, q.(born := q.born + 1), n, now, iconChanged)
    requires id == if n.id != 0 then n.id else q.nextId + 1
    ensures Sound(p) && Once(Id, p) && IsLive(p, n.(id := id))
  {
    PlaceKeeps(cfg, q, n, now, iconChanged);
    PlacedIsLive(cfg, q.(born := q.born + 1), n, now, iconChanged);
    WhenOnce(p);
  }

  lemma ClosedAsSuppressed(cfg: Settings, status: Status, p: Queues, n: Note, id: int, r: Queues)
    requires status.fullscreen && n.fullscreen == FsSuppress && r == CloseSuppressed(cfg, status, p, n, id)
    requires Sound(p) && Once(Id, p) && IsLive(p, n.(id := id)) && !n.redisplayed
    ensures !LiveKey(r, n.key)
    ensures n.dbusValid ==> r.log != [] && r.log[|r.log| - 1] == Closed(n.key, id, 4)
  {
    SuppressedIsTold(cfg, p, n.(id := id));
  }

  /** One that fullscreen mode suppresses is closed as it arrives, whatever it was stacked over:
      it is neither displayed nor waiting, and the last its client hears is reason 4. */
  lemma SuppressedOnArrival(cfg: Settings, status: Status, q: Queues, n: Note, now: int, iconChanged: set<nat>)
    requires Inv(q) && n.key == q.born && Fresh(n) && IdIsSafe(q, n.id) && n.content.msg != ""
    requires status.fullscreen && n.fullscreen == FsSuppress
    ensures var r, id := Notify(cfg, status, q, n, now, iconChanged), if n.id != 0 then n.id else q.nextId + 1;
            && !LiveKey(r, n.key)
            && (n.dbusValid ==> r.log != [] && r.log[|r.log| - 1] == Closed(n.key, id, 4))
  {
    var id := if n.id != 0 then n.id else q.nextId + 1;
    var p := Place(cfg, q.(born := q.born + 1), n, now, iconChanged);
    PlacedToBeClosed(cfg, q, n, now, iconChanged, id, p);
    NotifySuppresses(cfg, status, q, n, now, iconChanged);
    ClosedAsSuppressed(cfg, status, p, n, id, Notify(cfg, status, q, n, now, iconChanged));
  }

  // ---------- what stacking promises ----------

  lemma RetireDropsFor(cfg: Settings, q: Queues, n: Note, reason: int)
    ensures var r := Retire(cfg, q, n, reason);
            && q.dropped <= r.dropped
            && forall i | |q.dropped| <= i < |r.dropped| :: r.dropped[i].cause in {HistoryIgnored, Evicted}
  {
  }

  lemma CloseDropsFor(cfg: Settings, q: Queues, id: int, reason: int)
    ensures var r := CloseId(cfg, q, id, reason);
            && q.dropped <= r.dropped
            && forall i | |q.dropped| <= i < |r.dropped| :: r.dropped[i].cause in {HistoryIgnored, Evicted, Shadowed}
  {
    var d, w := IndexOfId(q.displayed, id), IndexOfId(q.waiting, id);
    if w < |q.waiting| {
      var s := if d < |q.displayed|
               then Drop(q, q.displayed[d], Shadowed).(displayed := RemoveAt(q.displayed, d)) else q;
      RetireDropsFor(cfg, s.(waiting := RemoveAt(q.waiting, w)), q.waiting[w], reason);
    } else if d < |q.displayed| {
      RetireDropsFor(cfg, q.(displayed := RemoveAt(q.displayed, d)), q.displayed[d], reason);
    }
  }

  lemma PlaceNewLetsGo(cfg: Settings, q: Queues, n: Note, now: int, iconChanged: set<nat>)
    requires n.id == 0 && n.content.stackTag == ""
    ensures var r := Place(cfg, q, n, now, iconChanged);
            || r.dropped == q.dropped
            || (&& cfg.stackDuplicates
                && exists h :: (h in q.displayed || h in q.waiting) && SaysTheSame(h, n, iconChanged)
                               && r.dropped == q.dropped + [Dropped(Told(h), Stacked)])
  {
    var n' := n.(id := q.nextId + 1);
    var d := IndexOfDuplicate(q.displayed, n', iconChanged);
    var w := IndexOfDuplicate(q.waiting, n', iconChanged);
    PlacesNew(cfg, q, n, now, iconChanged);
    DuplicateFound(q.displayed, n, q.nextId + 1, iconChanged);
    DuplicateFound(q.waiting, n, q.nextId + 1, iconChanged);
    if cfg.stackDuplicates && d < |q.displayed| {
      assert q.displayed[d] in q.displayed && SaysTheSame(q.displayed[d], n, iconChanged);
    } else if cfg.stackDuplicates && w < |q.waiting| {
      assert q.waiting[w] in q.waiting && SaysTheSame(q.waiting[w], n, iconChanged);
    }
  }

  /** What `q` lets go of on the way to `r`, when it is stacked over, says what `n` says. */
  ghost predicate StacksOnlyTheSame(cfg: Settings, q: Queues, n: Note, iconChanged: set<nat>, r: Queues) {
    forall i | |q.dropped| <= i < |r.dropped| && r.dropped[i].cause == Stacked ::
      cfg.stackDuplicates && SaysTheSame(r.dropped[i].note, n, iconChanged)
      && exists h :: (h in q.displayed || h in q.waiting) && h.key == r.dropped[i].note.key
                     && h.content == r.dropped[i].note.content
  }

  lemma PlacedOverTheSame(cfg: Settings, q: Queues, n: Note, now: int, iconChanged: set<nat>)
    requires n.id == 0 && n.content.stackTag == ""
    ensures StacksOnlyTheSame(cfg, q, n, iconChanged, Place(cfg, q, n, now, iconChanged))
    ensures q.dropped <= Place(cfg, q, n, now, iconChanged).dropped
  {
    PlaceNewLetsGo(cfg, q, n, now, iconChanged);
  }

  lemma ClosedAfterwards(cfg: Settings, status: Status, q: Queues, n: Note, iconChanged: set<nat>, p: Queues, id: int)
    requires StacksOnlyTheSame(cfg, q, n, iconChanged, p) && q.dropped <= p.dropped
    ensures StacksOnlyTheSame(cfg, q, n, iconChanged, CloseSuppressed(cfg, status, p, n, id))
  {
    CloseDropsFor(cfg, p, id, REASON_UNDEF);
  }

  lemma InsertedOverTheSame(cfg: Settings, status: Status, q: Queues, n: Note, now: int, iconChanged: set<nat>, id: int,
                            r: Queues)
    requires n.id == 0 && n.content.stackTag == ""
    requires r == CloseSuppressed(cfg, status, Place(cfg, q.(born := q.born + 1), n, now, iconChanged), n, id)
    ensures StacksOnlyTheSame(cfg, q, n, iconChanged, r)
  {
    var q1 := q.(born := q.born + 1);
    var p := Place(cfg, q1, n, now, iconChanged);
    PlacedOverTheSame(cfg, q1, n, now, iconChanged);
    ClosedAfterwards(cfg, status, q1, n, iconChanged, p, id);
    SameQueuesSameStacking(cfg, q1, q, n, iconChanged, r);
  }

  lemma SameQueuesSameStacking(cfg: Settings, q1: Queues, q: Queues, n: Note, iconChanged: set<nat>, r: Queues)
    requires q1.displayed == q.displayed && q1.waiting == q.waiting && q1.dropped == q.dropped
    requires StacksOnlyTheSame(cfg, q1, n, iconChanged, r)
    ensures StacksOnlyTheSame(cfg, q, n, iconChanged, r)
  {
  }

  lemma NewlyStackedOver(cfg: Settings, status: Status, q: Queues, n: Note, now: int, iconChanged: set<nat>)
    requires n.id == 0 && n.content.stackTag == ""
    ensures StacksOnlyTheSame(cfg, q, n, iconChanged, Notify(cfg, status, q, n, now, iconChanged))
  {
    if n.content.msg == "" {
      RefusedWithoutText(cfg, status, q, n, now, iconChanged);
    } else {
      NotifySuppresses(cfg, status, q, n, now, iconChanged);
      InsertedOverTheSame(cfg, status, q, n, now, iconChanged, AssignedId(q.(born := q.born + 1), n),
                          Notify(cfg, status, q, n, now, iconChanged));
    }
  }

  /** Nothing but a notification with the same application, summary, body, urgency and icon is
      ever stacked over by an arrival without a tag and without an id of its own. */
  lemma OnlyTheSameIsStackedOver(cfg: Settings, status: Status, q: Queues, n: Note, now: int, iconChanged: set<nat>,
                                 i: nat)
    requires n.id == 0 && n.content.stackTag == ""
    requires var r := Notify(cfg, status, q, n, now, iconChanged);
             |q.dropped| <= i < |r.dropped| && r.dropped[i].cause == Stacked
    ensures var m := Notify(cfg, status, q, n, now, iconChanged).dropped[i].note;
            && m.content.appname == n.content.appname
            && m.content.summary == n.content.summary
            && m.content.body == n.content.body
            && m.urgency == n.urgency
            && (|| m.content.iconPosition == IconOff || n.content.iconPosition == IconOff
                || (if m.content.iconId.Some? && n.content.iconId.Some? then m.content.iconId == n.content.iconId
                    else m.content.iconName.Some? && n.content.iconName.Some? ==>
                           m.content.iconName == n.content.iconName))
            && m.key !in iconChanged && cfg.stackDuplicates
            && exists h :: (h in q.displayed || h in q.waiting) && h.key == m.key && h.content == m.content
  {
    NewlyStackedOver(cfg, status, q, n, now, iconChanged);
  }

  lemma FirstSameExists(s: seq<Note>, n: Note, iconChanged: set<nat>) returns (i: nat)
    ensures if i < |s| then FirstSame(s, i, n, iconChanged) else NoneSame(s, n, iconChanged)
  {
    IndexOfDuplicateIsFirst(s, n, iconChanged);
    i := IndexOfDuplicate(s, n, iconChanged);
  }

  /** A live notification of `q` was stacked over by `n`, which takes over its count, plus one
      exactly when the progress is the same. */
  ghost predicate CountsOn(q: Queues, n: Note, r: Queues) {
    exists g, m :: && (g in q.displayed || g in q.waiting) && (m in r.displayed || m in r.waiting)
                   && m.key == n.key && m.content == n.content && m.id == q.nextId + 1
                   && m.dupCount == (if g.content.progress == n.content.progress then g.dupCount + 1 else g.dupCount)
                   && r.dropped == q.dropped + [Dropped(Told(g), Stacked)]
  }

  lemma CountsOnHere(q: Queues, n: Note, r: Queues, g: Note, m: Note)
    requires (g in q.displayed || g in q.waiting) && (m in r.displayed || m in r.waiting) && LetsGo(q, g, r)
    requires m == n.(id := q.nextId + 1, dupCount := CountAfter(g, n), start := m.start)
    ensures CountsOn(q, n, r)
  {
  }

  lemma RowTaken(s: seq<Note>, i: nat, m: Note, sorted: bool, r: seq<Note>)
    requires i < |s| && StackedAt(s, i, m, sorted, r)
    ensures m in r && |r| == |s|
  {
    assert s[i := m][i] == m;
  }

  lemma AgainOnScreen(cfg: Settings, status: Status, q: Queues, n: Note, now: int, iconChanged: set<nat>, d: nat)
    requires IsNew(status, n) && NoneTagged(q.displayed, n) && NoneTagged(q.waiting, n)
    requires cfg.stackDuplicates && FirstSame(q.displayed, d, n, iconChanged)
    ensures var r := Notify(cfg, status, q, n, now, iconChanged);
            |r.displayed| == |q.displayed| && |r.waiting| == |q.waiting| && CountsOn(q, n, r)
  {
    var r, g := Notify(cfg, status, q, n, now, iconChanged), q.displayed[d];
    var m := n.(id := q.nextId + 1).(dupCount := CountAfter(g, n), start := now);
    StacksDuplicateOnScreen(cfg, status, q, n, now, iconChanged, d);
    RowTaken(q.displayed, d, m, cfg.sort == ByUpdate, r.displayed);
    CountsOnHere(q, n, r, g, m);
  }

  lemma AgainWaiting(cfg: Settings, status: Status, q: Queues, n: Note, now: int, iconChanged: set<nat>, w: nat)
    requires IsNew(status, n) && NoneTagged(q.displayed, n) && NoneTagged(q.waiting, n)
    requires cfg.stackDuplicates && NoneSame(q.displayed, n, iconChanged) && FirstSame(q.waiting, w, n, iconChanged)
    ensures var r := Notify(cfg, status, q, n, now, iconChanged);
            |r.displayed| == |q.displayed| && |r.waiting| == |q.waiting| && CountsOn(q, n, r)
  {
    var r, g := Notify(cfg, status, q, n, now, iconChanged), q.waiting[w];
    var m := n.(id := q.nextId + 1).(dupCount := CountAfter(g, n));
    StacksDuplicateWaiting(cfg, status, q, n, now, iconChanged, w);
    assert r.waiting[w] == m;
    CountsOnHere(q, n, r, g, m);
  }

  /** Where stacking is on, saying the same thing again never makes the queues longer; the one
      that says it then carries on the count. */
  lemma SayingItAgainStacks(cfg: Settings, status: Status, q: Queues, n: Note, now: int, iconChanged: set<nat>, h: Note)
    requires IsNew(status, n) && NoneTagged(q.displayed, n) && NoneTagged(q.waiting, n)
    requires cfg.stackDuplicates && (h in q.displayed || h in q.waiting)
    requires && h.content.appname == n.content.appname && h.content.summary == n.content.summary
             && h.content.body == n.content.body && h.urgency == n.urgency && IconsAgree(h.content, n.content)
             && h.key !in iconChanged
    ensures var r := Notify(cfg, status, q, n, now, iconChanged);
            |r.displayed| == |q.displayed| && |r.waiting| == |q.waiting| && CountsOn(q, n, r)
  {
    var d := FirstSameExists(q.displayed, n, iconChanged);
    var w := FirstSameExists(q.waiting, n, iconChanged);
    assert SaysTheSame(h, n, iconChanged);
    if d < |q.displayed| {
      AgainOnScreen(cfg, status, q, n, now, iconChanged, d);
    } else {
      AgainWaiting(cfg, status, q, n, now, iconChanged, w);
    }
  }
}
