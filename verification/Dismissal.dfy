/** What closing, removing and recalling mean for one notification: where it goes, and in what state
    (queues_notification_close_id, queues_notification_remove, and the history functions of
    src/queues.c). */
module Dismissal {
  import opened Notifications
  import opened SortedQueue
  import opened Seeping
  import opened QueueSpec
  import opened Conservation
  import opened Distinct
  import opened Update
  import opened Closing
  import opened Runs
  import opened Signals

  // ---------- closing ----------

  /** A notification as it is filed: its client was told, now or before it was last recalled. */
  function AsFiled(n: Note): Note {
    if n.redisplayed then n else Told(n)
  }

  /** `n` went to the end of history, which lets its oldest entry go when it is full; or was let go
      itself, because it asks to be left out. */
  ghost predicate FiledAway(cfg: Settings, q: Queues, n: Note, r: Queues) {
    if n.historyIgnore then
      r.history == q.history && r.dropped == q.dropped + [Dropped(AsFiled(n), HistoryIgnored)]
    else if cfg.historyLength > 0 && |q.history| >= cfg.historyLength then
      && r.history == q.history[1..] + [AsFiled(n)]
      && r.dropped == q.dropped + [Dropped(q.history[0], Evicted)]
    else
      r.history == q.history + [AsFiled(n)] && r.dropped == q.dropped
  }

  lemma RetireFilesAway(cfg: Settings, q: Queues, n: Note, reason: int)
    ensures var r := Retire(cfg, q, n, reason);
            FiledAway(cfg, q, n, r) && r.displayed == q.displayed && r.waiting == q.waiting
  {
  }

  lemma NoOtherHolder(s: seq<Note>, i: nat)
    requires i < |s| && Count(Id, s[i].id, s) <= 1
    ensures forall m | m in RemoveAt(s, i) :: m.id != s[i].id
  {
    CountSplit(Id, s[i].id, s, i);
    CountAbsent(Id, s[i].id, RemoveAt(s, i));
  }

  lemma RemovedOthersStay(s: seq<Note>, i: nat, m: Note)
    requires i < |s| && m in s && m.id != s[i].id
    ensures m in RemoveAt(s, i)
  {
    var j :| 0 <= j < |s| && s[j] == m;
    assert RemoveAt(s, i)[if j < i then j else j - 1] == m;
  }

  lemma OthersStay(s: seq<Note>, i: nat)
    requires i < |s| && Count(Id, s[i].id, s) <= 1
    ensures forall m :: m in RemoveAt(s, i) <==> m in s && m.id != s[i].id
  {
    NoOtherHolder(s, i);
    forall m | m in s && m.id != s[i].id ensures m in RemoveAt(s, i) { RemovedOthersStay(s, i, m); }
    forall m | m in RemoveAt(s, i) ensures m in s { }
  }

  lemma WaitingUntouched(q: Queues, i: nat)
    requires Once(Id, q) && i < |q.displayed|
    ensures forall m | m in q.waiting :: m.id != q.displayed[i].id
  {
    var id := q.displayed[i].id;
    assert Current(Id, id, q) <= 1;
    CountSplit(Id, id, q.displayed, i);
    CountAbsent(Id, id, q.waiting);
  }

  lemma DisplayedUntouched(q: Queues, i: nat)
    requires Once(Id, q) && i < |q.waiting|
    ensures forall m | m in q.displayed :: m.id != q.waiting[i].id
  {
    var id := q.waiting[i].id;
    assert Current(Id, id, q) <= 1;
    CountSplit(Id, id, q.waiting, i);
    CountAbsent(Id, id, q.displayed);
  }

  lemma CloseShownFilesAway(cfg: Settings, q: Queues, i: nat, reason: int)
    requires Once(Id, q) && i < |q.displayed|
    ensures var n := q.displayed[i];
            var r := CloseId(cfg, q, n.id, reason);
            FiledAway(cfg, q, n, r) && r.displayed == RemoveAt(q.displayed, i) && r.waiting == q.waiting
  {
    UniqueIndex(q, i);
    IdInOneQueue(q, q.displayed[i].id);
    RetireFilesAway(cfg, q.(displayed := RemoveAt(q.displayed, i)), q.displayed[i], reason);
  }

  lemma CloseQueuedFilesAway(cfg: Settings, q: Queues, i: nat, reason: int)
    requires Once(Id, q) && i < |q.waiting|
    ensures var n := q.waiting[i];
            var r := CloseId(cfg, q, n.id, reason);
            FiledAway(cfg, q, n, r) && r.waiting == RemoveAt(q.waiting, i) && r.displayed == q.displayed
  {
    UniqueIndex(q, i);
    IdInOneQueue(q, q.waiting[i].id);
    RetireFilesAway(cfg, q.(waiting := RemoveAt(q.waiting, i)), q.waiting[i], reason);
  }

  /** Closing takes the notification out of its queue, files it away, and touches no other. */
  lemma CloseFilesAway(cfg: Settings, q: Queues, n: Note, reason: int)
    requires Once(Id, q) && (n in q.displayed || n in q.waiting)
    ensures var r := CloseId(cfg, q, n.id, reason);
            && FiledAway(cfg, q, n, r)
            && (forall m :: m in r.displayed <==> m in q.displayed && m.id != n.id)
            && (forall m :: m in r.waiting <==> m in q.waiting && m.id != n.id)
  {
    var i := LivePosition(q, n);
    assert Current(Id, n.id, q) <= 1;
    if i < |q.displayed| && q.displayed[i] == n {
      CloseShownFilesAway(cfg, q, i, reason);
      OthersStay(q.displayed, i);
      WaitingUntouched(q, i);
    } else {
      CloseQueuedFilesAway(cfg, q, i, reason);
      OthersStay(q.waiting, i);
      DisplayedUntouched(q, i);
    }
  }

  /** When an id is held on screen and in the queue as well, the queued holder is closed and its
      client told; the one on screen is lost, and its client hears nothing. */
  lemma TwoHoldersLoseOne(cfg: Settings, q: Queues, d: nat, w: nat, reason: int)
    requires d < |q.displayed| && w < |q.waiting| && q.displayed[d].id == q.waiting[w].id
    requires forall j | 0 <= j < d :: q.displayed[j].id != q.displayed[d].id
    requires forall j | 0 <= j < w :: q.waiting[j].id != q.waiting[w].id
    ensures var r, n := CloseId(cfg, q, q.waiting[w].id, reason), q.waiting[w];
            && r.displayed == q.displayed[..d] + q.displayed[d + 1..]
            && r.waiting == q.waiting[..w] + q.waiting[w + 1..]
            && FiledAway(cfg, q.(dropped := q.dropped + [Dropped(q.displayed[d], Shadowed)]), n, r)
            && r.log == q.log + Notice(n, if 1 <= reason <= 4 then reason else 4)
  {
    var s := Drop(q, q.displayed[d], Shadowed).(displayed := RemoveAt(q.displayed, d),
                                                waiting := RemoveAt(q.waiting, w));
    IndexOfIdAtMost(q.displayed, q.waiting[w].id, d);
    IndexOfIdAtMost(q.waiting, q.waiting[w].id, w);
    RetireFilesAway(cfg, s, q.waiting[w], reason);
    RetireTells(cfg, s, q.waiting[w], reason);
  }

  // ---------- removing ----------

  ghost predicate NoneHolds(q: Queues, id: int) {
    !HeldIn(q.displayed, id) && !HeldIn(q.waiting, id) && !HeldIn(q.history, id)
  }

  /** From history the entry with the id is let go, and every other stays. */
  lemma RemovedFromHistory(q: Queues, n: Note)
    requires Count(Id, n.id, q.history) <= 1 && n in q.history
    ensures var r := HistoryRemoveById(q, n.id);
            && r == q.(history := r.history, dropped := q.dropped + [Dropped(n, Removed)])
            && |r.history| == |q.history| - 1 && forall m :: m in r.history <==> m in q.history && m.id != n.id
  {
    var i :| 0 <= i < |q.history| && q.history[i] == n;
    FirstHolder(q.history, i);
    OthersStay(q.history, i);
  }

  lemma NotInHistory(q: Queues, id: int)
    requires !HeldIn(q.history, id)
    ensures HistoryRemoveById(q, id) == q
  {
    HeldWhenFound(q.history, id);
  }

  lemma EndsWith(h: seq<Note>, kept: seq<Note>, n: Note, before: seq<Note>)
    requires h == kept + [n] && (forall m | m in kept :: m in before) && !HeldIn(before, n.id)
    ensures Count(Id, n.id, h) == 1 && n in h
  {
    CountAbsent(Id, n.id, kept);
    CountSnoc(Id, n.id, kept, n);
  }

  lemma FiledLast(cfg: Settings, q: Queues, n: Note, c: Queues)
    requires FiledAway(cfg, q, n, c) && !n.historyIgnore && !HeldIn(q.history, n.id)
    ensures Count(Id, n.id, c.history) == 1 && AsFiled(n) in c.history
    ensures q.dropped <= c.dropped
  {
    if cfg.historyLength > 0 && |q.history| >= cfg.historyLength {
      EndsWith(c.history, q.history[1..], AsFiled(n), q.history);
    } else {
      EndsWith(c.history, q.history, AsFiled(n), q.history);
    }
  }

  lemma HistoryFree(q: Queues, n: Note)
    requires IdsDistinct(q) && (n in q.displayed || n in q.waiting)
    ensures !HeldIn(q.history, n.id)
  {
    CountAbsent(Id, n.id, q.displayed);
    CountAbsent(Id, n.id, q.waiting);
    CountAbsent(Id, n.id, q.history);
    assert Live(Id, n.id, q) <= 1;
  }

  /** Removing a live notification leaves its id nowhere: not even in history, through which it
      passes. It is let go as removed, unless it asks to be left out of history anyway. */
  lemma RemovedForGood(cfg: Settings, q: Queues, n: Note, reason: int)
    requires IdsDistinct(q) && (n in q.displayed || n in q.waiting)
    ensures var r := RemoveId(cfg, q, n.id, reason);
            && NoneHolds(r, n.id)
            && r.dropped != []
            && r.dropped[|r.dropped| - 1]
               == Dropped(AsFiled(n), if n.historyIgnore then HistoryIgnored else Removed)
            && (forall m :: m in r.displayed <==> m in q.displayed && m.id != n.id)
            && (forall m :: m in r.waiting <==> m in q.waiting && m.id != n.id)
  {
    var c := CloseId(cfg, q, n.id, reason);
    WhenOnce(q);
    CloseFilesAway(cfg, q, n, reason);
    HistoryFree(q, n);
    if n.historyIgnore {
      NotInHistory(c, n.id);
    } else {
      FiledLast(cfg, q, n, c);
      RemovedFromHistory(c, AsFiled(n));
    }
  }

  // ---------- what an update lets go of ----------

  /** Marked by the user to be removed, and by no menu locked. */
  predicate IsToBeRemoved(n: Note) {
    !n.locked && n.closeMark == 0 && n.removeMark != 0
  }

  /** From `q` to `r` only those in `marked` are let go as removed; whatever else is let go was left
      out of history, or pushed out of it. */
  ghost predicate RemovesOnly(marked: seq<Note>, q: Queues, r: Queues) {
    && q.dropped <= r.dropped
    && forall j | |q.dropped| <= j < |r.dropped| ::
         || r.dropped[j].cause in {HistoryIgnored, Evicted}
         || (r.dropped[j].cause == Removed && RemovesOne(marked, r.dropped[j].note.key))
  }

  ghost predicate RemovesOne(marked: seq<Note>, key: nat) {
    exists m :: m in marked && m.key == key && IsToBeRemoved(m)
  }

  lemma RemovesOnlyTransitive(marked: seq<Note>, q: Queues, r: Queues, s: Queues)
    requires RemovesOnly(marked, q, r) && RemovesOnly(marked, r, s)
    ensures RemovesOnly(marked, q, s)
  {
    forall j | |r.dropped| > j >= |q.dropped| ensures s.dropped[j] == r.dropped[j] { }
  }

  lemma CloseRemovesNone(cfg: Settings, marked: seq<Note>, q: Queues, n: Note, reason: int)
    requires Once(Id, q) && (n in q.displayed || n in q.waiting)
    ensures RemovesOnly(marked, q, CloseId(cfg, q, n.id, reason))
  {
    CloseFilesAway(cfg, q, n, reason);
  }

  lemma RemoveRemovesOne(cfg: Settings, marked: seq<Note>, q: Queues, n: Note, reason: int)
    requires IdsDistinct(q) && n in q.displayed && RemovesOne(marked, n.key)
    ensures RemovesOnly(marked, q, RemoveId(cfg, q, n.id, reason))
  {
    var c := CloseId(cfg, q, n.id, reason);
    WhenOnce(q);
    CloseRemovesNone(cfg, marked, q, n, reason);
    CloseFilesAway(cfg, q, n, reason);
    HistoryFree(q, n);
    if n.historyIgnore {
      NotInHistory(c, n.id);
    } else {
      FiledLast(cfg, q, n, c);
      RemovedFromHistory(c, AsFiled(n));
    }
    RemovesOnlyTransitive(marked, q, c, HistoryRemoveById(c, n.id));
  }

  lemma ChangedIsDistinct(q: Queues, i: nat, m: Note)
    requires IdsDistinct(q) && i < |q.displayed| && SameIdentity(q.displayed[i], m)
    ensures var c := SetDisplayed(q, i, m);
            IdsDistinct(c) && Once(Id, c) && m in c.displayed && c.dropped == q.dropped && c.history == q.history
  {
    var c := SetDisplayed(q, i, m);
    forall x ensures Live(Id, x, c) == Live(Id, x, q) { CountUpdate(Id, x, q.displayed, i, m); }
    WhenOnce(c);
    assert c.displayed[i] == m;
  }

  lemma SweepStepRemoves(cfg: Settings, status: Status, time: int, clock: nat -> int, marked: seq<Note>, q: Queues,
                         i: nat)
    requires IdsDistinct(q) && i < |q.displayed| && q.displayed[i] in marked
    ensures RemovesOnly(marked, q, SweepStep(cfg, status, time, clock, q, i).0)
  {
    var n := q.displayed[i];
    if n.locked {
    } else if n.closeMark != 0 {
      ChangedIsDistinct(q, i, n.(closeMark := 0));
      CloseRemovesNone(cfg, marked, SetDisplayed(q, i, n.(closeMark := 0)), n.(closeMark := 0), n.closeMark);
    } else if n.removeMark != 0 {
      ChangedIsDistinct(q, i, n.(removeMark := 0));
      assert IsToBeRemoved(n);
      RemoveRemovesOne(cfg, marked, SetDisplayed(q, i, n.(removeMark := 0)), n.(removeMark := 0), n.removeMark);
    } else {
      SweepUnmarkedRemovesNone(cfg, status, time, clock, marked, q, i);
    }
  }

  lemma SweepUnmarkedRemovesNone(cfg: Settings, status: Status, time: int, clock: nat -> int, marked: seq<Note>,
                                 q: Queues, i: nat)
    requires IdsDistinct(q) && i < |q.displayed|
    ensures RemovesOnly(marked, q, SweepUnmarked(cfg, status, time, clock, q, i).0)
  {
    var n := q.displayed[i];
    var t := Touched(n, status, clock(n.key));
    WhenOnce(q);
    ChangedIsDistinct(q, i, t);
    CloseRemovesNone(cfg, marked, q, n, REASON_TIME);
    CloseRemovesNone(cfg, marked, SetDisplayed(q, i, t), t, REASON_UNDEF);
  }

  /** A turn of the first loop leaves everything in order for the next. */
  lemma NextTurn(cfg: Settings, status: Status, time: int, clock: nat -> int, q: Queues, i: nat)
    requires Sound(q) && IdsDistinct(q) && i < |q.displayed|
    ensures var s := SweepStep(cfg, status, time, clock, q, i);
            && Sound(s.0) && IdsDistinct(s.0) && q.dropped <= s.0.dropped
            && s.1 <= |s.0.displayed| && s.0.displayed[s.1..] == q.displayed[i + 1..]
  {
    var s := SweepStep(cfg, status, time, clock, q, i);
    WhenOnce(q);
    SweepStepKeeps(cfg, status, time, clock, q, i);
    ConservesKeepsIds(q, s.0);
    SweepTurn(cfg, status, time, clock, q, i);
  }

  lemma {:induction false} SweepRemoves(cfg: Settings, status: Status, time: int, clock: nat -> int,
                                        marked: seq<Note>, q: Queues, i: nat)
    requires Sound(q) && IdsDistinct(q) && i <= |q.displayed| && forall n | n in q.displayed[i..] :: n in marked
    ensures RemovesOnly(marked, q, Sweep(cfg, status, time, clock, q, i))
    decreases |q.displayed| - i
  {
    if i < |q.displayed| {
      var s := SweepStep(cfg, status, time, clock, q, i);
      assert q.displayed[i] in q.displayed[i..] && forall n | n in q.displayed[i + 1..] :: n in q.displayed[i..];
      SweepStepRemoves(cfg, status, time, clock, marked, q, i);
      NextTurn(cfg, status, time, clock, q, i);
      SweepRemoves(cfg, status, time, clock, marked, s.0, s.1);
      RemovesOnlyTransitive(marked, q, s.0, Sweep(cfg, status, time, clock, s.0, s.1));
    }
  }

  lemma PromoteStepRemovesNone(cfg: Settings, status: Status, time: int, marked: seq<Note>, q: Queues, i: nat)
    requires Once(Id, q) && i < |q.waiting|
    ensures RemovesOnly(marked, q, PromoteStep(cfg, status, time, q, i).0)
    ensures Once(Id, PromoteStep(cfg, status, time, q, i).0)
  {
    var n := q.waiting[i].(start := time);
    var c := SetWaiting(q, i, n);
    SetWaitingShrinks(q, i, n);
    OnceShrinks(Id, q, c);
    assert c.waiting[i] == n;
    CloseRemovesNone(cfg, marked, c, n, REASON_UNDEF);
    CloseRemovesNone(cfg, marked, c, n, REASON_USER);
    PromoteStepShrinks(cfg, status, time, q, i);
    OnceShrinks(Id, q, PromoteStep(cfg, status, time, q, i).0);
  }

  lemma {:induction false} PromoteRemovesNone(cfg: Settings, status: Status, time: int, limit: int,
                                              marked: seq<Note>, q: Queues, i: nat)
    requires Once(Id, q) && i <= |q.waiting|
    ensures RemovesOnly(marked, q, Promote(cfg, status, time, limit, q, i))
    decreases |q.waiting| - i
  {
    if i < |q.waiting| && |q.displayed| < limit {
      var s := PromoteStep(cfg, status, time, q, i);
      PromoteStepRemovesNone(cfg, status, time, marked, q, i);
      PromoteRemovesNone(cfg, status, time, limit, marked, s.0, s.1);
      RemovesOnlyTransitive(marked, q, s.0, Promote(cfg, status, time, limit, s.0, s.1));
    }
  }

  lemma {:induction false} TrimLetsNoneGo(cfg: Settings, limit: int, q: Queues)
    requires 0 <= limit
    ensures Trim(cfg, limit, q).dropped == q.dropped
    decreases |q.displayed|
  {
    if |q.displayed| > limit {
      TrimLetsNoneGo(cfg, limit, ToWaiting(cfg, q, |q.displayed| - 1));
    }
  }

  lemma {:induction false} SeepLetsNoneGo(cfg: Settings, status: Status, time: int, q: Queues)
    ensures Seep(cfg, status, time, q).dropped == q.dropped
    decreases UrgencyInversions(cfg, q.displayed, q.waiting), AllDescents(cfg, q.displayed, q.waiting),
              Depth(cfg, q.displayed, q.waiting)
  {
    if Seeps(cfg, status, q) {
      SwapDecreases(cfg, status, time, q);
      SeepLetsNoneGo(cfg, status, time, Swap(cfg, time, q));
    }
  }

  lemma LaterLoopsRemoveNone(cfg: Settings, status: Status, time: int, clock: nat -> int, marked: seq<Note>, q: Queues)
    requires Once(Id, q)
    ensures RemovesOnly(marked, AfterSweep(cfg, status, time, clock, q), Updated(cfg, status, time, clock, q))
  {
    var s, limit := AfterSweep(cfg, status, time, clock, q), LimitOf(cfg, status, time, clock, q);
    SweepThins(cfg, status, time, clock, q, 0);
    OnceShrinks(Id, q, s);
    PromoteRemovesNone(cfg, status, time, limit, marked, s, 0);
    TrimLetsNoneGo(cfg, limit, AfterPromote(cfg, status, time, clock, q));
    SeepLetsNoneGo(cfg, status, time, AfterTrim(cfg, status, time, clock, q));
  }

  /** An update lets go as removed only what the user marked so on screen. */
  lemma OnlyMarkedAreRemoved(cfg: Settings, status: Status, time: int, clock: nat -> int, q: Queues)
    requires Sound(q) && IdsDistinct(q)
    ensures RemovesOnly(q.displayed, q, Updated(cfg, status, time, clock, q))
  {
    assert q.displayed[0..] == q.displayed;
    WhenOnce(q);
    SweepRemoves(cfg, status, time, clock, q.displayed, q, 0);
    LaterLoopsRemoveNone(cfg, status, time, clock, q.displayed, q);
    RemovesOnlyTransitive(q.displayed, q, AfterSweep(cfg, status, time, clock, q),
                          Updated(cfg, status, time, clock, q));
  }

  ghost predicate LetGoAs(d: seq<Dropped>, key: nat, cause: Cause) {
    exists j :: 0 <= j < |d| && d[j].note.key == key && d[j].cause == cause
  }

  lemma LetGoStays(d: seq<Dropped>, e: seq<Dropped>, key: nat, cause: Cause)
    requires LetGoAs(d, key, cause) && d <= e
    ensures LetGoAs(e, key, cause)
  {
    var j :| 0 <= j < |d| && d[j].note.key == key && d[j].cause == cause;
    assert e[j] == d[j];
  }

  lemma RemovesNow(cfg: Settings, status: Status, time: int, clock: nat -> int, q: Queues, i: nat)
    requires i < |q.displayed| && IsToBeRemoved(q.displayed[i])
    ensures var n := q.displayed[i];
            var c := SetDisplayed(q, i, n.(removeMark := 0));
            SweepStep(cfg, status, time, clock, q, i).0 == RemoveId(cfg, c, n.id, n.removeMark)
  {
  }

  lemma LastLetGo(d: seq<Dropped>, n: Note, cause: Cause)
    requires d != [] && d[|d| - 1] == Dropped(AsFiled(n), cause)
    ensures LetGoAs(d, n.key, cause)
  {
    assert d[|d| - 1].note.key == n.key;
  }

  lemma MarkedTurn(cfg: Settings, status: Status, time: int, clock: nat -> int, q: Queues, i: nat)
    requires IdsDistinct(q) && i < |q.displayed| && IsToBeRemoved(q.displayed[i])
    ensures var n := q.displayed[i];
            LetGoAs(SweepStep(cfg, status, time, clock, q, i).0.dropped, n.key,
                    if n.historyIgnore then HistoryIgnored else Removed)
  {
    var n := q.displayed[i];
    var m := n.(removeMark := 0);
    RemovesNow(cfg, status, time, clock, q, i);
    ChangedIsDistinct(q, i, m);
    RemovedForGood(cfg, SetDisplayed(q, i, m), m, n.removeMark);
    LastLetGo(RemoveId(cfg, SetDisplayed(q, i, m), m.id, n.removeMark).dropped, m,
              if n.historyIgnore then HistoryIgnored else Removed);
  }

  lemma {:induction false} SweepRemovesMarked(cfg: Settings, status: Status, time: int, clock: nat -> int, q: Queues,
                                              i: nat, n: Note)
    requires Sound(q) && IdsDistinct(q) && i <= |q.displayed| && n in q.displayed[i..] && IsToBeRemoved(n)
    ensures LetGoAs(Sweep(cfg, status, time, clock, q, i).dropped, n.key,
                    if n.historyIgnore then HistoryIgnored else Removed)
    decreases |q.displayed| - i
  {
    var s, cause := SweepStep(cfg, status, time, clock, q, i), if n.historyIgnore then HistoryIgnored else Removed;
    NextTurn(cfg, status, time, clock, q, i);
    if q.displayed[i] == n {
      MarkedTurn(cfg, status, time, clock, q, i);
      SweepRemoves(cfg, status, time, clock, s.0.displayed, s.0, s.1);
      LetGoStays(s.0.dropped, Sweep(cfg, status, time, clock, s.0, s.1).dropped, n.key, cause);
    } else {
      assert n in q.displayed[i + 1..];
      SweepRemovesMarked(cfg, status, time, clock, s.0, s.1, n);
    }
  }

  /** And all of that it does let go: what is marked so is found neither in history nor anywhere else
      after the update. */
  lemma MarkedAreRemoved(cfg: Settings, status: Status, time: int, clock: nat -> int, q: Queues, n: Note)
    requires Sound(q) && IdsDistinct(q) && n in q.displayed && IsToBeRemoved(n)
    ensures var r := Updated(cfg, status, time, clock, q);
            && LetGoAs(r.dropped, n.key, if n.historyIgnore then HistoryIgnored else Removed)
            && !LiveKey(r, n.key) && !HasKey(r.history, n.key)
  {
    var s, r := AfterSweep(cfg, status, time, clock, q), Updated(cfg, status, time, clock, q);
    assert q.displayed[0..] == q.displayed;
    WhenOnce(q);
    SweepRemovesMarked(cfg, status, time, clock, q, 0, n);
    LaterLoopsRemoveNone(cfg, status, time, clock, [], q);
    LetGoStays(s.dropped, r.dropped, n.key, if n.historyIgnore then HistoryIgnored else Removed);
    UpdateKeeps(cfg, status, time, clock, q);
    LetGoIsNowhere(r, n.key, if n.historyIgnore then HistoryIgnored else Removed);
  }

  lemma LetGoIsNowhere(q: Queues, key: nat, cause: Cause)
    requires EachObjectOnce(q) && LetGoAs(q.dropped, key, cause)
    ensures !LiveKey(q, key) && !HasKey(q.history, key)
  {
    var j :| 0 <= j < |q.dropped| && q.dropped[j].note.key == key && q.dropped[j].cause == cause;
    assert Notes(q.dropped)[j] in Notes(q.dropped);
    CountAbsent(Key, key, Notes(q.dropped));
    CountAbsent(Key, key, q.displayed);
    CountAbsent(Key, key, q.waiting);
    CountAbsent(Key, key, q.history);
    assert All(Key, key, q) <= 1;
  }

  /** Every other notification that an update closes is in history afterwards, unless it asks to be
      left out or the newer ones pushed it out. */
  lemma ClosedAreFiled(cfg: Settings, status: Status, time: int, clock: nat -> int, q: Queues, n: Note)
    requires Sound(q) && IdsDistinct(q) && (n in q.displayed || n in q.waiting)
    requires (n in q.displayed ==> !IsToBeRemoved(n)) && !LiveKey(Updated(cfg, status, time, clock, q), n.key)
    ensures var r := Updated(cfg, status, time, clock, q);
            HasKey(r.history, n.key) || LetGoAs(r.dropped, n.key, HistoryIgnored) || LetGoAs(r.dropped, n.key, Evicted)
  {
    var r := Updated(cfg, status, time, clock, q);
    OnlyMarkedAreRemoved(cfg, status, time, clock, q);
    UpdateKeeps(cfg, status, time, clock, q);
    WhenOnce(q);
    LiveKeysApart(q);
    NotYetLetGo(q, n);
    assert All(Key, n.key, r) == All(Key, n.key, q) == 1;
    if !HasKey(r.history, n.key) {
      var j := FoundLetGo(r, n.key);
      assert forall i | 0 <= i < |q.dropped| :: r.dropped[i] == q.dropped[i] && r.dropped[i] in q.dropped;
      LetGoAt(q.displayed, q, r, n, j);
    }
  }

  lemma FoundLetGo(r: Queues, key: nat) returns (j: nat)
    requires All(Key, key, r) == 1 && !LiveKey(r, key) && !HasKey(r.history, key)
    ensures j < |r.dropped| && r.dropped[j].note.key == key
  {
    CountAbsent(Key, key, r.displayed);
    CountAbsent(Key, key, r.waiting);
    CountAbsent(Key, key, r.history);
    CountAbsent(Key, key, Notes(r.dropped));
    var m :| m in Notes(r.dropped) && m.key == key;
    j :| 0 <= j < |r.dropped| && Notes(r.dropped)[j] == m;
  }

  lemma LetGoAt(marked: seq<Note>, q: Queues, r: Queues, n: Note, j: nat)
    requires RemovesOnly(marked, q, r) && |q.dropped| <= j < |r.dropped| && r.dropped[j].note.key == n.key
    requires forall m | m in marked && m.key == n.key :: !IsToBeRemoved(m)
    ensures LetGoAs(r.dropped, n.key, HistoryIgnored) || LetGoAs(r.dropped, n.key, Evicted)
  {
  }

  lemma NotYetLetGo(q: Queues, n: Note)
    requires EachObjectOnce(q) && (n in q.displayed || n in q.waiting)
    ensures All(Key, n.key, q) == 1 && forall d | d in q.dropped :: d.note.key != n.key
  {
    CountAbsent(Key, n.key, q.displayed);
    CountAbsent(Key, n.key, q.waiting);
    CountAbsent(Key, n.key, Notes(q.dropped));
    assert All(Key, n.key, q) <= 1;
    forall d | d in q.dropped ensures d.note.key != n.key {
      var j :| 0 <= j < |q.dropped| && q.dropped[j] == d;
      assert Notes(q.dropped)[j] in Notes(q.dropped);
    }
  }

  /** Clearing lets go of all of history, oldest first. */
  lemma {:induction false} ClearLetsAllGo(q: Queues)
    ensures var r := HistoryClear(q);
            && r == q.(history := [], dropped := r.dropped)
            && |r.dropped| == |q.dropped| + |q.history| && q.dropped <= r.dropped
            && forall i | 0 <= i < |q.history| :: r.dropped[|q.dropped| + i] == Dropped(q.history[i], Removed)
    decreases |q.history|
  {
    if q.history != [] {
      var s := Drop(q, q.history[0], Removed).(history := q.history[1..]);
      var r := HistoryClear(s);
      ClearLetsAllGo(s);
      forall i | 0 <= i < |q.history| ensures r.dropped[|q.dropped| + i] == Dropped(q.history[i], Removed) {
        if i > 0 { assert r.dropped[|s.dropped| + (i - 1)] == Dropped(s.history[i - 1], Removed); }
      }
    }
  }

  // ---------- recalling ----------

  /** A recalled notification waits again, marked as recalled; a sticky history shows it until it is
      closed by hand. */
  function AsRecalled(cfg: Settings, n: Note): Note {
    n.(redisplayed := true, timeout := if cfg.stickyHistory then 0 else n.timeout)
  }

  ghost predicate Recalled(cfg: Settings, q: Queues, i: nat, r: Queues)
    requires i < |q.history|
  {
    && r == q.(history := r.history, waiting := r.waiting)
    && r.history == q.history[..i] + q.history[i + 1..]
    && |r.waiting| == |q.waiting| + 1
    && forall m :: m in r.waiting <==> m == AsRecalled(cfg, q.history[i]) || m in q.waiting
  }

  /** The user recalls the newest entry, or the first one with an id; without one nothing happens. */
  lemma RecallsNewest(cfg: Settings, q: Queues)
    ensures if q.history == [] then HistoryPop(cfg, q) == q
            else Recalled(cfg, q, |q.history| - 1, HistoryPop(cfg, q))
  {
    if q.history != [] { InsertMembers(cfg, q.waiting, AsRecalled(cfg, q.history[|q.history| - 1])); }
  }

  lemma RecallsById(cfg: Settings, q: Queues, id: int, i: nat)
    ensures !HeldIn(q.history, id) ==> HistoryPopById(cfg, q, id) == q
    ensures i < |q.history| && q.history[i].id == id && !HeldIn(q.history[..i], id) ==>
              Recalled(cfg, q, i, HistoryPopById(cfg, q, id))
  {
    var k := IndexOfId(q.history, id);
    if k < |q.history| {
      assert q.history[k] in q.history;
      assert k < i <= |q.history| ==> q.history[..i][k] == q.history[k] && q.history[k] in q.history[..i];
      InsertMembers(cfg, q.waiting, AsRecalled(cfg, q.history[k]));
    }
    if i < |q.history| && q.history[i].id == id { IndexOfIdAtMost(q.history, id, i); }
  }

  /** Looking an id up prefers the screen to the queue, and the queue to history. */
  lemma FoundById(q: Queues, id: int)
    ensures var r := GetById(q, id);
            && (r.None? <==> NoneHolds(q, id))
            && (r.Some? ==> && r.value.id == id
                            && (HeldIn(q.displayed, id) ==> r.value in q.displayed)
                            && (!HeldIn(q.displayed, id) && HeldIn(q.waiting, id) ==> r.value in q.waiting)
                            && (!HeldIn(q.displayed, id) && !HeldIn(q.waiting, id) ==> r.value in q.history))
  {
    HeldWhenFound(q.displayed, id);
    HeldWhenFound(q.waiting, id);
    HeldWhenFound(q.history, id);
  }
}
