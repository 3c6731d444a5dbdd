/** What one update means for the fields of the notifications: who is on screen, who has to
    wait, who is closed, and when display times start. */
module Showing {
  import opened Notifications
  import opened SortedQueue
  import opened Seeping
  import opened QueueSpec
  import opened Conservation
  import opened Distinct
  import opened Update
  import opened Scheduling
  import opened Closing

  // ---------- room on screen ----------

  /** A displayed notification that is not closed, and one that besides is not sent back. */
  predicate LivesOn(n: Note, status: Status, time: int) {
    || n.locked
    || (&& n.closeMark == 0 && n.removeMark == 0 && (n.skipDisplay ==> n.redisplayed)
        && (n.timeout != 0 && time - n.start > n.timeout ==>
              !n.transient && (status.mouseOver || (status.idle && !status.fullscreen)))
        && (status.fullscreen ==> n.fullscreen != FsSuppress))
  }

  predicate KeepsRow(n: Note, status: Status, time: int) {
    && LivesOn(n, status, time)
    && (n.locked || (&& status.pauseLevel <= n.overridePauseLevel
                     && (status.fullscreen ==> n.fullscreen != FsPushback)))
  }

  function HowManyLive(s: seq<Note>, status: Status, time: int): nat {
    if s == [] then 0 else (if LivesOn(s[0], status, time) then 1 else 0) + HowManyLive(s[1..], status, time)
  }

  function HowManyKeepRows(s: seq<Note>, status: Status, time: int): nat {
    if s == [] then 0 else (if KeepsRow(s[0], status, time) then 1 else 0) + HowManyKeepRows(s[1..], status, time)
  }

  /** The rows that the settings allow: one less than the limit where the "(N more)" text takes one,
      because there are more notifications than rows. */
  function RowsAllowed(cfg: Settings, status: Status, time: int, q: Queues): int {
    var live := HowManyLive(q.displayed, status, time) + |q.waiting|;
    if cfg.notificationLimit == 0 then 0x7FFF_FFFF
    else if cfg.indicateHidden && cfg.notificationLimit > 1 && live > cfg.notificationLimit
    then cfg.notificationLimit - 1
    else cfg.notificationLimit
  }

  /** Those of them that are free for waiting notifications. */
  function FreeRows(cfg: Settings, status: Status, time: int, q: Queues): int {
    RowsAllowed(cfg, status, time, q) - HowManyKeepRows(q.displayed, status, time)
  }

  lemma {:induction false} CountedAlike(s: seq<Note>, status: Status, time: int)
    ensures |Staying(s, status, time)| == HowManyLive(s, status, time)
    ensures |Shown(s, status, time)| == HowManyKeepRows(s, status, time)
  {
    if s != [] { CountedAlike(s[1..], status, time); }
  }

  lemma RoomIsFreeRows(cfg: Settings, status: Status, time: int, clock: nat -> int, q: Queues)
    requires Once(Id, q)
    ensures LimitOf(cfg, status, time, clock, q) == RowsAllowed(cfg, status, time, q)
    ensures var s := AfterSweep(cfg, status, time, clock, q);
            Limit(cfg, s) - |s.displayed| == FreeRows(cfg, status, time, q)
  {
    RoomIsLeft(cfg, status, time, clock, q);
    CountedAlike(q.displayed, status, time);
  }

  /** From `q` to `r` a row was left free. */
  predicate LeavesPlace(cfg: Settings, status: Status, time: int, q: Queues, r: Queues) {
    |r.displayed| < RowsAllowed(cfg, status, time, q)
  }

  lemma PlaceIsBelowLimit(cfg: Settings, status: Status, time: int, clock: nat -> int, q: Queues)
    requires Once(Id, q) && LeavesPlace(cfg, status, time, q, Updated(cfg, status, time, clock, q))
    ensures |Updated(cfg, status, time, clock, q).displayed| < LimitOf(cfg, status, time, clock, q)
  {
    RoomIsFreeRows(cfg, status, time, clock, q);
  }

  /** No update leaves more rows on screen than the settings allow. */
  lemma ScreenHoldsAtMost(cfg: Settings, status: Status, time: int, clock: nat -> int, q: Queues)
    requires Once(Id, q)
    ensures |Updated(cfg, status, time, clock, q).displayed| <= RowsAllowed(cfg, status, time, q)
  {
    RoomIsFreeRows(cfg, status, time, clock, q);
    UpdateLengths(cfg, status, time, clock, q);
  }

  // ---------- what the screen shows ----------

  /** What is displayed after an update, and locked by no menu, is held back neither by the pause
      level nor by fullscreen mode, and its time is not up. */
  lemma DisplayedMayBeShown(cfg: Settings, status: Status, time: int, clock: nat -> int, q: Queues)
    requires OnceOnScreen(q) && forall k :: time <= clock(k)
    ensures forall n | n in Updated(cfg, status, time, clock, q).displayed && !n.locked ::
              && status.pauseLevel <= n.overridePauseLevel
              && (status.fullscreen ==> n.fullscreen != FsPushback && n.fullscreen != FsSuppress)
              && (n.timeout > 0 ==> time <= n.start + n.timeout)
  {
    UpdateLeavesFit(cfg, status, time, clock, q);
    forall n | n in Updated(cfg, status, time, clock, q).displayed && !n.locked
      ensures status.pauseLevel <= n.overridePauseLevel
      ensures status.fullscreen ==> n.fullscreen != FsPushback && n.fullscreen != FsSuppress
    {
      assert Fit(n, status, time);
    }
  }

  /** While a place is left, whatever waits is held back: by the pause level, or by fullscreen
      mode. What fullscreen mode suppresses does not wait. */
  lemma WaitingIsHeldBack(cfg: Settings, status: Status, time: int, clock: nat -> int, q: Queues)
    requires Once(Id, q) && forall k :: time <= clock(k)
    requires LeavesPlace(cfg, status, time, q, Updated(cfg, status, time, clock, q))
    ensures forall n | n in Updated(cfg, status, time, clock, q).waiting ::
              || status.pauseLevel > n.overridePauseLevel
              || (status.fullscreen && n.fullscreen != FsShow && n.fullscreen != FsSuppress)
    ensures status.fullscreen ==>
              forall n | n in Updated(cfg, status, time, clock, q).waiting :: n.fullscreen != FsSuppress
  {
    var r := Updated(cfg, status, time, clock, q);
    UpdateConservesWork(cfg, status, time, clock, q);
    PlaceIsBelowLimit(cfg, status, time, clock, q);
    forall n | n in r.waiting
      ensures status.pauseLevel > n.overridePauseLevel || (status.fullscreen && n.fullscreen != FsShow)
      ensures status.fullscreen ==> n.fullscreen != FsSuppress
    {
      assert Blocked(n, status);
    }
  }

  /** A notification that waited before an update and waits after it is the same but for its start. */
  lemma StillWaits(cfg: Settings, status: Status, time: int, clock: nat -> int, q: Queues, n: Note, m: Note)
    requires Once(Id, q) && Once(Key, q)
    requires n in q.displayed || n in q.waiting
    requires var r := Updated(cfg, status, time, clock, q); (m in r.displayed || m in r.waiting) && m.key == n.key
    ensures m == n.(start := m.start)
  {
    OnceIsOnScreen(q);
    UpdateOnlyRestarts(cfg, status, time, clock, q);
    LiveKeysApart(q);
    assert CameFrom(q, m);
  }

  // ---------- nobody who is to be skipped ----------

  lemma PlaceEndsEarly(cfg: Settings, status: Status, time: int, clock: nat -> int, q: Queues)
    requires Once(Id, q) && LeavesPlace(cfg, status, time, q, Updated(cfg, status, time, clock, q))
    ensures Updated(cfg, status, time, clock, q) == AfterPromote(cfg, status, time, clock, q)
  {
    var p, limit := AfterPromote(cfg, status, time, clock, q), LimitOf(cfg, status, time, clock, q);
    PlaceIsBelowLimit(cfg, status, time, clock, q);
    UpdateLengths(cfg, status, time, clock, q);
    TrimEnds(cfg, limit, p);
    TrimIsIdle(cfg, limit, p);
  }

  lemma {:induction false} PromoteShowsNoneToSkip(cfg: Settings, status: Status, time: int, limit: int, q: Queues,
                                                  i: nat)
    requires i <= |q.waiting|
    ensures forall m | m in Promote(cfg, status, time, limit, q, i).displayed ::
              m in q.displayed || !m.skipDisplay || m.redisplayed
    decreases |q.waiting| - i
  {
    if i < |q.waiting| && |q.displayed| < limit {
      var n, s := q.waiting[i], PromoteStep(cfg, status, time, q, i);
      var c := SetWaiting(q, i, n.(start := time));
      CloseIdMembers(cfg, c, n.id, REASON_UNDEF);
      CloseIdMembers(cfg, c, n.id, REASON_USER);
      InsertMembers(cfg, q.displayed, n.(start := time));
      PromoteShowsNoneToSkip(cfg, status, time, limit, s.0, s.1);
    }
  }

  lemma {:induction false} ShownKeys(s: seq<Note>, status: Status, time: int, key: nat)
    ensures HasKey(Shown(s, status, time), key) ==> HasKey(s, key)
  {
    if s != [] {
      ShownKeys(s[1..], status, time, key);
      KeyOfCons(s[0], s[1..], key);
      assert s == [s[0]] + s[1..];
      KeyOfCons(s[0], Shown(s[1..], status, time), key);
    }
  }

  lemma SweptFromScreen(cfg: Settings, status: Status, time: int, clock: nat -> int, q: Queues, m: Note)
    requires Once(Id, q) && m in AfterSweep(cfg, status, time, clock, q).displayed
    ensures HasKey(q.displayed, m.key)
  {
    var shown := Shown(q.displayed, status, time);
    SweepSplits(cfg, status, time, clock, q, 0);
    assert q.displayed[0..] == q.displayed;
    assert HasKey(Look(shown, status, clock), m.key);
    KeyOfLook(shown, status, clock, m.key);
    ShownKeys(q.displayed, status, time, m.key);
  }

  /** While a place is left, one that is to be skipped is not shown instead. */
  lemma SkippedIsNotShown(cfg: Settings, status: Status, time: int, clock: nat -> int, q: Queues, n: Note, m: Note)
    requires Once(Id, q) && Once(Key, q) && LeavesPlace(cfg, status, time, q, Updated(cfg, status, time, clock, q))
    requires n in q.waiting && n.skipDisplay && !n.redisplayed
    requires m in Updated(cfg, status, time, clock, q).displayed
    ensures m.key != n.key
  {
    var s := AfterSweep(cfg, status, time, clock, q);
    PlaceEndsEarly(cfg, status, time, clock, q);
    PromoteShowsNoneToSkip(cfg, status, time, Limit(cfg, s), s, 0);
    LiveKeysApart(q);
    if m.key == n.key {
      StillWaits(cfg, status, time, clock, q, n, m);
      SweptFromScreen(cfg, status, time, clock, q, m);
    }
  }

  /** While a place is left, a waiting notification that no field holds back is on screen after
      the update, unless it is to be skipped. */
  lemma ShownWhenThereIsRoom(cfg: Settings, status: Status, time: int, clock: nat -> int, q: Queues, n: Note)
    requires Once(Id, q) && Once(Key, q) && forall k :: time <= clock(k)
    requires LeavesPlace(cfg, status, time, q, Updated(cfg, status, time, clock, q))
    requires n in q.waiting && status.pauseLevel <= n.overridePauseLevel
    requires status.fullscreen ==> n.fullscreen == FsShow
    ensures var r := Updated(cfg, status, time, clock, q);
            if n.skipDisplay && !n.redisplayed then !LiveKey(r, n.key) else HasKey(r.displayed, n.key)
  {
    var r := Updated(cfg, status, time, clock, q);
    var j :| 0 <= j < |q.waiting| && q.waiting[j] == n;
    WaitingIsHeldBack(cfg, status, time, clock, q);
    WaitingLeavesIff(cfg, status, time, clock, q, j);
    forall m | m in r.waiting && m.key == n.key ensures false {
      StillWaits(cfg, status, time, clock, q, n, m);
    }
    if n.skipDisplay && !n.redisplayed {
      forall m | m in r.displayed ensures m.key != n.key {
        SkippedIsNotShown(cfg, status, time, clock, q, n, m);
      }
    } else {
      assert TakesPlace(n, status);
    }
  }

  // ---------- who stays on screen ----------

  lemma {:induction false} PromoteKeepsShown(cfg: Settings, status: Status, time: int, limit: int, q: Queues, i: nat,
                                             key: nat)
    requires Once(Id, q) && i <= |q.waiting| && HasKey(q.displayed, key)
    ensures HasKey(Promote(cfg, status, time, limit, q, i).displayed, key)
    decreases |q.waiting| - i
  {
    if i < |q.waiting| && |q.displayed| < limit {
      var s := PromoteStep(cfg, status, time, q, i);
      PromoteStepFate(cfg, status, time, q, i);
      PromoteStepShrinks(cfg, status, time, q, i);
      OnceShrinks(Id, q, s.0);
      KeyOfInsert(cfg, q.displayed, q.waiting[i].(start := time), key);
      PromoteKeepsShown(cfg, status, time, limit, s.0, s.1, key);
    }
  }

  lemma {:induction false} ShownMembers(s: seq<Note>, n: Note, status: Status, time: int)
    requires n in s && KeepsRow(n, status, time)
    ensures n in Shown(s, status, time)
  {
    if n != s[0] { ShownMembers(s[1..], n, status, time); }
  }

  lemma PromotedStays(cfg: Settings, status: Status, time: int, clock: nat -> int, q: Queues, n: Note)
    requires Once(Id, q) && n in q.displayed && KeepsRow(n, status, time)
    ensures HasKey(AfterPromote(cfg, status, time, clock, q).displayed, n.key)
  {
    var s, shown := AfterSweep(cfg, status, time, clock, q), Shown(q.displayed, status, time);
    SweepSplits(cfg, status, time, clock, q, 0);
    assert q.displayed[0..] == q.displayed;
    ShownMembers(q.displayed, n, status, time);
    KeyOfLook(shown, status, clock, n.key);
    SweepThins(cfg, status, time, clock, q, 0);
    OnceShrinks(Id, q, s);
    PromoteKeepsShown(cfg, status, time, Limit(cfg, s), s, 0, n.key);
  }

  lemma {:induction false} PromoteStopsAtLimit(cfg: Settings, status: Status, time: int, limit: int, q: Queues, i: nat)
    requires i <= |q.waiting| && |q.displayed| <= limit
    ensures |Promote(cfg, status, time, limit, q, i).displayed| <= limit
    decreases |q.waiting| - i
  {
    if i < |q.waiting| && |q.displayed| < limit {
      var n, s := q.waiting[i], PromoteStep(cfg, status, time, q, i);
      CloseIdQueues(cfg, SetWaiting(q, i, n.(start := time)), n.id, REASON_UNDEF);
      CloseIdQueues(cfg, SetWaiting(q, i, n.(start := time)), n.id, REASON_USER);
      PromoteStopsAtLimit(cfg, status, time, limit, s.0, s.1);
    }
  }

  lemma EndsInIdOrder(cfg: Settings, status: Status, time: int, clock: nat -> int, q: Queues)
    requires Once(Id, q) && cfg.sort == SortType.ById && FreeRows(cfg, status, time, q) >= 0
    ensures Updated(cfg, status, time, clock, q) == AfterPromote(cfg, status, time, clock, q)
  {
    var s := AfterSweep(cfg, status, time, clock, q);
    RoomIsFreeRows(cfg, status, time, clock, q);
    PromoteStopsAtLimit(cfg, status, time, Limit(cfg, s), s, 0);
    TrimIsIdle(cfg, Limit(cfg, s), AfterPromote(cfg, status, time, clock, q));
  }

  /** A displayed notification that no field of it asks to close or to push back stays on screen while
      a place is left; and where rows are sorted by id, as long as the rows allowed do not get fewer. */
  lemma StaysOnScreen(cfg: Settings, status: Status, time: int, clock: nat -> int, q: Queues, n: Note)
    requires Once(Id, q) && n in q.displayed
    requires || LeavesPlace(cfg, status, time, q, Updated(cfg, status, time, clock, q))
             || (cfg.sort == SortType.ById && FreeRows(cfg, status, time, q) >= 0)
    requires || n.locked
             || (&& n.closeMark == 0 && n.removeMark == 0 && (n.skipDisplay ==> n.redisplayed)
                 && (n.timeout != 0 ==> time - n.start <= n.timeout)
                 && status.pauseLevel <= n.overridePauseLevel
                 && (status.fullscreen ==> n.fullscreen != FsPushback && n.fullscreen != FsSuppress))
    ensures HasKey(Updated(cfg, status, time, clock, q).displayed, n.key)
  {
    PromotedStays(cfg, status, time, clock, q, n);
    if LeavesPlace(cfg, status, time, q, Updated(cfg, status, time, clock, q)) {
      PlaceEndsEarly(cfg, status, time, clock, q);
    } else {
      EndsInIdOrder(cfg, status, time, clock, q);
    }
  }

  // ---------- who is closed ----------

  /** A displayed notification is closed exactly when no menu locks it and it is marked, or to be
      skipped, or timed out while its time was running, or suppressed by fullscreen mode. Time
      stands still under the mouse and, outside fullscreen mode, while the user is idle; but not
      for transient notifications. */
  lemma DisplayedClosesIff(cfg: Settings, status: Status, time: int, clock: nat -> int, q: Queues, n: Note)
    requires Once(Id, q) && Once(Key, q) && n in q.displayed
    ensures !LiveKey(Updated(cfg, status, time, clock, q), n.key)
            <==> && !n.locked
                 && (|| n.closeMark != 0
                     || n.removeMark != 0
                     || (n.skipDisplay && !n.redisplayed)
                     || (&& n.timeout != 0 && time - n.start > n.timeout
                         && (n.transient || !(status.mouseOver || (status.idle && !status.fullscreen))))
                     || (status.fullscreen && n.fullscreen == FsSuppress))
  {
    var i :| 0 <= i < |q.displayed| && q.displayed[i] == n;
    DisplayedLeavesIff(cfg, status, time, clock, q, i);
  }

  /** A waiting one is closed only when fullscreen mode suppresses it, or when it is to be skipped
      and held back by nothing. The suppressed ones are closed at least while a place is left. */
  lemma WaitingClosesOnly(cfg: Settings, status: Status, time: int, clock: nat -> int, q: Queues, n: Note)
    requires Once(Id, q) && Once(Key, q) && forall k :: time <= clock(k)
    requires n in q.waiting
    ensures !LiveKey(Updated(cfg, status, time, clock, q), n.key) ==>
              || (status.fullscreen && n.fullscreen == FsSuppress)
              || (&& n.skipDisplay && !n.redisplayed && status.pauseLevel <= n.overridePauseLevel
                  && (status.fullscreen ==> n.fullscreen == FsShow))
    ensures var r := Updated(cfg, status, time, clock, q);
            LeavesPlace(cfg, status, time, q, r) && status.fullscreen && n.fullscreen == FsSuppress ==>
              !HasKey(r.waiting, n.key)
  {
    var r := Updated(cfg, status, time, clock, q);
    var j :| 0 <= j < |q.waiting| && q.waiting[j] == n;
    WaitingLeavesIff(cfg, status, time, clock, q, j);
    if LeavesPlace(cfg, status, time, q, r) {
      WaitingIsHeldBack(cfg, status, time, clock, q);
      forall m | m in r.waiting && m.key == n.key ensures m == n.(start := m.start) {
        StillWaits(cfg, status, time, clock, q, n, m);
      }
    }
  }

  // ---------- when display times start ----------

  /** `m` is a live notification of `q` whose display time starts now. */
  ghost predicate StartsNow(time: int, q: Queues, m: Note) {
    exists w :: (w in q.displayed || w in q.waiting) && m == w.(start := time)
  }

  /** From `q` to `r` notifications changed places; those that came on screen start now. */
  ghost predicate Shifts(time: int, q: Queues, r: Queues) {
    && (forall m | m in r.displayed :: m in q.displayed || StartsNow(time, q, m))
    && (forall m | m in r.waiting :: m in q.waiting || m in q.displayed || StartsNow(time, q, m))
  }

  lemma StartsOnce(time: int, q: Queues, r: Queues, m: Note)
    requires Shifts(time, q, r) && StartsNow(time, r, m)
    ensures StartsNow(time, q, m)
  {
    var w :| (w in r.displayed || w in r.waiting) && m == w.(start := time);
    if w in q.displayed || w in q.waiting {
    } else {
      StartedBefore(time, q, w, m);
    }
  }

  lemma StartedBefore(time: int, q: Queues, w: Note, m: Note)
    requires StartsNow(time, q, w) && m == w.(start := time)
    ensures StartsNow(time, q, m)
  {
    assert m == w;
  }

  lemma ShiftsTransitive(time: int, q: Queues, r: Queues, s: Queues)
    requires Shifts(time, q, r) && Shifts(time, r, s)
    ensures Shifts(time, q, s)
  {
    forall m | StartsNow(time, r, m) ensures StartsNow(time, q, m) { StartsOnce(time, q, r, m); }
  }

  lemma ShowShifts(cfg: Settings, time: int, q: Queues, i: nat)
    requires i < |q.waiting|
    ensures Shifts(time, q, ToDisplayed(cfg, q, i, time))
  {
    InsertMembers(cfg, q.displayed, q.waiting[i].(start := time));
    assert q.waiting[i] in q.waiting;
  }

  lemma CloseStartedShifts(cfg: Settings, time: int, q: Queues, i: nat, reason: int)
    requires i < |q.waiting|
    ensures var n := q.waiting[i]; Shifts(time, q, CloseId(cfg, SetWaiting(q, i, n.(start := time)), n.id, reason))
  {
    var n := q.waiting[i];
    CloseIdMembers(cfg, SetWaiting(q, i, n.(start := time)), n.id, reason);
    assert n in q.waiting;
  }

  lemma {:induction false} PromoteShifts(cfg: Settings, status: Status, time: int, limit: int, q: Queues, i: nat)
    requires i <= |q.waiting|
    ensures Shifts(time, q, Promote(cfg, status, time, limit, q, i))
    decreases |q.waiting| - i
  {
    if i < |q.waiting| && |q.displayed| < limit {
      var s := PromoteStep(cfg, status, time, q, i);
      ShowShifts(cfg, time, q, i);
      CloseStartedShifts(cfg, time, q, i, REASON_UNDEF);
      CloseStartedShifts(cfg, time, q, i, REASON_USER);
      PromoteShifts(cfg, status, time, limit, s.0, s.1);
      ShiftsTransitive(time, q, s.0, Promote(cfg, status, time, limit, s.0, s.1));
    }
  }

  lemma {:induction false} TrimShifts(cfg: Settings, time: int, limit: int, q: Queues)
    requires 0 <= limit
    ensures Shifts(time, q, Trim(cfg, limit, q))
    decreases |q.displayed|
  {
    if |q.displayed| > limit {
      var r := ToWaiting(cfg, q, |q.displayed| - 1);
      InsertMembers(cfg, q.waiting, q.displayed[|q.displayed| - 1]);
      TrimShifts(cfg, time, limit, r);
      ShiftsTransitive(time, q, r, Trim(cfg, limit, r));
    }
  }

  lemma SwapShifts(cfg: Settings, time: int, q: Queues)
    requires q.waiting != [] && q.displayed != []
    ensures Shifts(time, q, Swap(cfg, time, q))
  {
    var last := |q.displayed| - 1;
    InsertMembers(cfg, q.displayed[..last], q.waiting[0].(start := time));
    InsertMembers(cfg, q.waiting[1..], q.displayed[last]);
    assert q.waiting[0] in q.waiting;
  }

  lemma {:induction false} SeepShifts(cfg: Settings, status: Status, time: int, q: Queues)
    ensures Shifts(time, q, Seep(cfg, status, time, q))
    decreases UrgencyInversions(cfg, q.displayed, q.waiting), AllDescents(cfg, q.displayed, q.waiting),
              Depth(cfg, q.displayed, q.waiting)
  {
    if Seeps(cfg, status, q) {
      var r := Swap(cfg, time, q);
      SwapDecreases(cfg, status, time, q);
      SwapShifts(cfg, time, q);
      SeepShifts(cfg, status, time, r);
      ShiftsTransitive(time, q, r, Seep(cfg, status, time, r));
    }
  }

  lemma LaterLoopsShift(cfg: Settings, status: Status, time: int, clock: nat -> int, q: Queues)
    ensures Shifts(time, AfterSweep(cfg, status, time, clock, q), Updated(cfg, status, time, clock, q))
  {
    var s, p := AfterSweep(cfg, status, time, clock, q), AfterPromote(cfg, status, time, clock, q);
    var t, limit := AfterTrim(cfg, status, time, clock, q), LimitOf(cfg, status, time, clock, q);
    PromoteShifts(cfg, status, time, limit, s, 0);
    TrimShifts(cfg, time, limit, p);
    SeepShifts(cfg, status, time, t);
    ShiftsTransitive(time, s, p, t);
    ShiftsTransitive(time, s, t, Seep(cfg, status, time, t));
  }

  /** Where a displayed notification starts from after the first loop. */
  function RestartOf(n: Note, status: Status, clock: nat -> int): int {
    if && !n.locked && n.timeout != 0 && !n.transient
       && (status.mouseOver || (status.idle && !status.fullscreen)) then clock(n.key)
    else n.start
  }

  lemma {:induction false} ShownAreOf(s: seq<Note>, status: Status, time: int)
    ensures forall n | n in Shown(s, status, time) :: n in s && !Closes(n, status, time)
    ensures forall n | n in Returning(s, status, time) :: n in s && !Closes(n, status, time)
  {
    if s != [] { ShownAreOf(s[1..], status, time); }
  }

  lemma {:induction false} InsertAllMembers(cfg: Settings, w: seq<Note>, s: seq<Note>)
    ensures forall m | m in InsertAll(cfg, w, s) :: m in w || m in s
    decreases |s|
  {
    if s != [] {
      InsertMembers(cfg, w, s[0]);
      InsertAllMembers(cfg, InsertSorted(cfg, w, s[0]), s[1..]);
    }
  }

  /** `m` is what the first loop leaves of a notification that was on screen. */
  ghost predicate Looked(q: Queues, m: Note, status: Status, clock: nat -> int) {
    exists l :: l in q.displayed && m == l.(start := RestartOf(l, status, clock))
  }

  lemma LookedMembers(s: seq<Note>, q: Queues, m: Note, status: Status, time: int, clock: nat -> int)
    requires forall n | n in s :: n in q.displayed && !Closes(n, status, time)
    requires m in Look(s, status, clock)
    ensures Looked(q, m, status, clock)
  {
    var i :| 0 <= i < |s| && LookAt(s[i], status, clock) == m;
    assert s[i] in s;
  }

  lemma SweptFrom(cfg: Settings, status: Status, time: int, clock: nat -> int, q: Queues)
    requires Once(Id, q)
    ensures var s := AfterSweep(cfg, status, time, clock, q);
            && (forall m | m in s.displayed :: Looked(q, m, status, clock))
            && (forall m | m in s.waiting :: m in q.waiting || Looked(q, m, status, clock))
  {
    var s := AfterSweep(cfg, status, time, clock, q);
    var shown, returning := Shown(q.displayed, status, time), Returning(q.displayed, status, time);
    SweepSplits(cfg, status, time, clock, q, 0);
    assert q.displayed[0..] == q.displayed;
    ShownAreOf(q.displayed, status, time);
    InsertAllMembers(cfg, q.waiting, Look(returning, status, clock));
    forall m | m in s.displayed ensures Looked(q, m, status, clock) {
      LookedMembers(shown, q, m, status, time, clock);
    }
    forall m | m in s.waiting && m !in q.waiting ensures Looked(q, m, status, clock) {
      LookedMembers(returning, q, m, status, time, clock);
    }
  }

  lemma OriginAfterUpdate(cfg: Settings, status: Status, time: int, clock: nat -> int, q: Queues, m: Note)
    requires Once(Id, q)
    ensures var r := Updated(cfg, status, time, clock, q);
            && (m in r.displayed ==> m.start == time || Looked(q, m, status, clock))
            && (m in r.waiting ==> m.start == time || Looked(q, m, status, clock) || m in q.waiting)
  {
    SweptFrom(cfg, status, time, clock, q);
    LaterLoopsShift(cfg, status, time, clock, q);
  }

  lemma LookedStart(q: Queues, n: Note, m: Note, status: Status, clock: nat -> int)
    requires Once(Key, q) && n.key == m.key && (n in q.displayed || n in q.waiting)
    ensures Looked(q, m, status, clock) ==> n in q.displayed && m.start == RestartOf(n, status, clock)
    ensures m in q.waiting ==> m == n
  {
    LiveKeysApart(q);
  }

  /** The display time of what is live after an update: it starts now for what came on screen;
      a paused one with a timeout that stays there starts at the clock, so its time is not used
      up; any other start is the one it had. */
  lemma StartsAfterUpdate(cfg: Settings, status: Status, time: int, clock: nat -> int, q: Queues, n: Note, m: Note)
    requires Once(Id, q) && Once(Key, q) && (n in q.displayed || n in q.waiting)
    requires var r := Updated(cfg, status, time, clock, q); (m in r.displayed || m in r.waiting) && m.key == n.key
    ensures m == n.(start := m.start)
    ensures n in q.displayed && m.start != time ==>
              m.start == (if && !n.locked && n.timeout != 0 && !n.transient
                             && (status.mouseOver || (status.idle && !status.fullscreen)) then clock(n.key)
                          else n.start)
    ensures n in q.waiting && m.start != time ==>
              m.start == n.start && m !in Updated(cfg, status, time, clock, q).displayed
  {
    StillWaits(cfg, status, time, clock, q, n, m);
    OriginAfterUpdate(cfg, status, time, clock, q, m);
    LookedStart(q, n, m, status, clock);
    LiveKeysApart(q);
  }

  // ---------- the order on screen ----------

  /** `a` may stand above `b`: what each sort setting asks of the fields. */
  predicate MayStandAbove(cfg: Settings, a: Note, b: Note) {
    match cfg.sort
    case ById => a.id <= b.id
    case UrgencyAscending => a.urgency < b.urgency || (a.urgency == b.urgency && a.id <= b.id)
    case UrgencyDescending => a.urgency > b.urgency || (a.urgency == b.urgency && a.id <= b.id)
    case ByUpdate => if cfg.originBottom then a.timestamp <= b.timestamp else a.timestamp >= b.timestamp
  }

  lemma RankIsAbove(cfg: Settings, base: int, a: Note, b: Note)
    requires InWindow(cfg, base, a) && InWindow(cfg, base, b) && Rank(cfg, a) <= Rank(cfg, b)
    ensures MayStandAbove(cfg, a, b)
  {
  }

  /** An update leaves the screen in the order of the settings. */
  lemma ScreenIsInOrder(cfg: Settings, base: int, status: Status, time: int, clock: nat -> int, q: Queues)
    requires Comparable(cfg, base, q) && Sorted(cfg, q.displayed) && Sorted(cfg, q.waiting)
    ensures var d := Updated(cfg, status, time, clock, q).displayed;
            forall i, j | 0 <= i < j < |d| :: MayStandAbove(cfg, d[i], d[j])
  {
    var d := Updated(cfg, status, time, clock, q).displayed;
    UpdateKeepsSorted(cfg, base, status, time, clock, q);
    forall i, j | 0 <= i < j < |d| ensures MayStandAbove(cfg, d[i], d[j]) {
      assert d[i] in d && d[j] in d;
      RankIsAbove(cfg, base, d[i], d[j]);
    }
  }

  lemma FormerIsAbove(cfg: Settings, base: int, a: seq<Note>, b: seq<Note>, d: Note, w: Note)
    requires Sorted(cfg, a + b) && AllInWindow(cfg, base, a) && AllInWindow(cfg, base, b) && d in a && w in b
    ensures MayStandAbove(cfg, d, w)
  {
    var i :| 0 <= i < |a| && a[i] == d;
    var j :| 0 <= j < |b| && b[j] == w;
    assert (a + b)[i] == d && (a + b)[|a| + j] == w;
    RankIsAbove(cfg, base, d, w);
  }

  /** Unless rows are sorted by id, and when no field holds back what waits, none of it belongs
      above anything on screen. */
  lemma BestAreShown(cfg: Settings, base: int, status: Status, time: int, clock: nat -> int, q: Queues, d: Note,
                     w: Note)
    requires Once(Id, q) && Comparable(cfg, base, q) && Sorted(cfg, q.displayed) && Sorted(cfg, q.waiting)
    requires cfg.sort != SortType.ById && forall k :: time <= clock(k)
    requires forall n | n in Updated(cfg, status, time, clock, q).waiting ::
               status.pauseLevel <= n.overridePauseLevel && (status.fullscreen ==> n.fullscreen == FsShow)
    requires var r := Updated(cfg, status, time, clock, q); d in r.displayed && w in r.waiting
    ensures MayStandAbove(cfg, d, w)
  {
    var r := Updated(cfg, status, time, clock, q);
    UpdateTakesTheFirst(cfg, base, status, time, clock, q);
    UpdateKeepsSorted(cfg, base, status, time, clock, q);
    FormerIsAbove(cfg, base, r.displayed, r.waiting, d, w);
  }
}
