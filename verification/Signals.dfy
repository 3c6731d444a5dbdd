/** What the bus hears: which object each signal names, and for which reason every operation
    reports a notification closed (signal_notification_closed in src/dbus.c). */
module Signals {
  import opened Notifications
  import opened SortedQueue
  import opened Seeping
  import opened QueueSpec
  import opened Conservation
  import opened Distinct
  import opened Update
  import opened Scheduling
  import opened Closing
  import opened Runs
  import opened Showing

  // ---------- whole runs ----------

  /** Over any run every signal is about an object that arrived, carries the id this object has
      wherever it is now or was let go, and closes it for one of the four reasons. */
  lemma SignalsNameTheirObject(steps: seq<(Settings, Op)>, e: Event)
    requires IsRun(steps) && e in Run(steps, EMPTY).log
    ensures var q := Run(steps, EMPTY);
            && e.key < q.born
            && (e.Closed? ==> 1 <= e.reason <= 4)
            && (forall n | (n in q.displayed || n in q.waiting || n in q.history) && n.key == e.key :: n.id == e.id)
            && (forall d | d in q.dropped && d.note.key == e.key :: d.note.id == e.id)
  {
    var q := Run(steps, EMPTY);
    EmptyInv();
    RunKeepsSound(steps, EMPTY);
    forall n | (n in q.displayed || n in q.waiting || n in q.history) && n.key == e.key ensures n.id == e.id {
      assert FlagAgrees(q.log, n);
    }
    forall d | d in q.dropped && d.note.key == e.key ensures d.note.id == e.id {
      assert FlagAgrees(q.log, d.note);
    }
  }

  // ---------- closing on request ----------

  /** A notification whose client was told that it is closed can report nothing more. */
  function Told(n: Note): Note {
    if n.dbusValid then n.(dbusValid := false, actions := {}) else n
  }

  /** What the client of `n` hears when it is closed: nothing the second time, after history. */
  function Notice(n: Note, reason: int): seq<Event> {
    if n.dbusValid && !n.redisplayed then [Closed(n.key, n.id, reason)] else []
  }

  lemma RetireTells(cfg: Settings, q: Queues, n: Note, reason: int)
    ensures Retire(cfg, q, n, reason).log == q.log + Notice(n, if 1 <= reason <= 4 then reason else 4)
  {
  }

  lemma CloseDisplayedTells(cfg: Settings, q: Queues, i: nat, reason: int)
    requires Once(Id, q) && i < |q.displayed|
    ensures var n := q.displayed[i];
            CloseId(cfg, q, n.id, reason).log == q.log + Notice(n, if 1 <= reason <= 4 then reason else 4)
  {
    UniqueIndex(q, i);
    IdInOneQueue(q, q.displayed[i].id);
    RetireTells(cfg, q.(displayed := RemoveAt(q.displayed, i)), q.displayed[i], reason);
  }

  lemma CloseWaitingTells(cfg: Settings, q: Queues, i: nat, reason: int)
    requires Once(Id, q) && i < |q.waiting|
    ensures var n := q.waiting[i];
            CloseId(cfg, q, n.id, reason).log == q.log + Notice(n, if 1 <= reason <= 4 then reason else 4)
  {
    UniqueIndex(q, i);
    IdInOneQueue(q, q.waiting[i].id);
    RetireTells(cfg, q.(waiting := RemoveAt(q.waiting, i)), q.waiting[i], reason);
  }

  lemma LivePosition(q: Queues, n: Note) returns (i: nat)
    requires n in q.displayed || n in q.waiting
    ensures (i < |q.displayed| && q.displayed[i] == n) || (i < |q.waiting| && q.waiting[i] == n)
  {
    if n in q.displayed {
      i :| 0 <= i < |q.displayed| && q.displayed[i] == n;
    } else {
      i :| 0 <= i < |q.waiting| && q.waiting[i] == n;
    }
  }

  /** Closing a live notification tells its client the reason given, or 4 for an unknown one; and
      nothing is said when nobody live holds the id. */
  lemma CloseTells(cfg: Settings, q: Queues, n: Note, reason: int)
    requires Once(Id, q)
    ensures n in q.displayed || n in q.waiting ==>
              CloseId(cfg, q, n.id, reason).log == q.log + Notice(n, if 1 <= reason <= 4 then reason else 4)
    ensures (forall m | m in q.displayed || m in q.waiting :: m.id != n.id) ==>
              CloseId(cfg, q, n.id, reason) == q
  {
    if n in q.displayed || n in q.waiting {
      var i := LivePosition(q, n);
      if i < |q.displayed| && q.displayed[i] == n {
        CloseDisplayedTells(cfg, q, i, reason);
      } else {
        CloseWaitingTells(cfg, q, i, reason);
      }
    }
  }

  lemma KeyGone(q: Queues, r: Queues, i: nat, key: nat)
    requires Once(Key, q)
    requires || (i < |q.displayed| && q.displayed[i].key == key && r.displayed == RemoveAt(q.displayed, i)
                 && r.waiting == q.waiting)
             || (i < |q.waiting| && q.waiting[i].key == key && r.waiting == RemoveAt(q.waiting, i)
                 && r.displayed == q.displayed)
    ensures !LiveKey(r, key)
  {
    assert Current(Key, key, q) <= 1;
    if i < |q.displayed| && r.displayed == RemoveAt(q.displayed, i) && q.displayed[i].key == key {
      CountSplit(Key, key, q.displayed, i);
    } else {
      CountSplit(Key, key, q.waiting, i);
    }
    CountAbsent(Key, key, r.displayed);
    CountAbsent(Key, key, r.waiting);
  }

  lemma CloseTakesOne(cfg: Settings, q: Queues, i: nat, reason: int)
    requires Once(Id, q)
    ensures i < |q.displayed| ==>
              var r := CloseId(cfg, q, q.displayed[i].id, reason);
              r.displayed == RemoveAt(q.displayed, i) && r.waiting == q.waiting
    ensures i < |q.waiting| ==>
              var r := CloseId(cfg, q, q.waiting[i].id, reason);
              r.waiting == RemoveAt(q.waiting, i) && r.displayed == q.displayed
  {
    UniqueIndex(q, i);
    if i < |q.displayed| {
      IdInOneQueue(q, q.displayed[i].id);
      CloseIdQueues(cfg, q, q.displayed[i].id, reason);
    }
    if i < |q.waiting| {
      IdInOneQueue(q, q.waiting[i].id);
      CloseIdQueues(cfg, q, q.waiting[i].id, reason);
    }
  }

  lemma CloseEndsKey(cfg: Settings, q: Queues, n: Note, reason: int)
    requires Once(Id, q) && Once(Key, q) && (n in q.displayed || n in q.waiting)
    ensures !LiveKey(CloseId(cfg, q, n.id, reason), n.key)
  {
    var i := LivePosition(q, n);
    CloseTakesOne(cfg, q, i, reason);
    KeyGone(q, CloseId(cfg, q, n.id, reason), i, n.key);
  }

  /** A client that closes its notification hears reason 3, and it leaves the live queues. */
  lemma ClientCloses(cfg: Settings, q: Queues, n: Note)
    requires Once(Id, q) && Once(Key, q) && (n in q.displayed || n in q.waiting) && !cfg.ignoreDbusClose
    ensures var r := CloseNotification(cfg, q, n.id); r.log == q.log + Notice(n, 3) && !LiveKey(r, n.key)
  {
    CloseTells(cfg, q, n, REASON_SIG);
    CloseEndsKey(cfg, q, n, REASON_SIG);
  }

  ghost predicate OnlyTold(s: seq<Note>, n: Note, r: seq<Note>) {
    |r| == |s| && forall j | 0 <= j < |s| :: r[j] == if s[j] == n then Told(n) else s[j]
  }

  /** Where closing by clients is ignored it hears the same, but the notification stays. */
  lemma ClientIsOnlyTold(cfg: Settings, q: Queues, n: Note)
    requires Once(Id, q) && Once(Key, q) && (n in q.displayed || n in q.waiting) && cfg.ignoreDbusClose && n.id > 0
    ensures var r := CloseNotification(cfg, q, n.id);
            && r.log == q.log + (if n.dbusValid then [Closed(n.key, n.id, 3)] else [])
            && OnlyTold(q.displayed, n, r.displayed) && OnlyTold(q.waiting, n, r.waiting)
            && r.history == q.history && r.dropped == q.dropped && r.nextId == q.nextId && r.born == q.born
  {
    var i := LivePosition(q, n);
    UniqueIndex(q, i);
    IdInOneQueue(q, n.id);
    LiveKeysApart(q);
  }

  // ---------- closing everything ----------

  function Notices(s: seq<Note>, reason: int): seq<Event> {
    if s == [] then [] else Notice(s[0], reason) + Notices(s[1..], reason)
  }

  lemma TopTold(cfg: Settings, q: Queues)
    requires Once(Id, q) && q.displayed != []
    ensures var c := CloseId(cfg, q, q.displayed[0].id, REASON_USER);
            && c.log == q.log + Notice(q.displayed[0], 2) && Once(Id, c)
            && c.displayed == q.displayed[1..] && c.waiting == q.waiting
  {
    var n := q.displayed[0];
    CloseDisplayedTells(cfg, q, 0, REASON_USER);
    assert SetDisplayed(q, 0, n) == q;
    CloseShown(cfg, q, q, 0, n, REASON_USER);
    CloseIdShrinks(cfg, q, n.id, REASON_USER);
    OnceShrinks(Id, q, CloseId(cfg, q, n.id, REASON_USER));
  }

  lemma HeadTold(cfg: Settings, q: Queues)
    requires Once(Id, q) && q.waiting != []
    ensures var c := CloseId(cfg, q, q.waiting[0].id, REASON_USER);
            && c.log == q.log + Notice(q.waiting[0], 2) && Once(Id, c) && c.waiting == q.waiting[1..]
  {
    var n := q.waiting[0];
    CloseWaitingTells(cfg, q, 0, REASON_USER);
    UniqueIndex(q, 0);
    CloseIdQueues(cfg, q, n.id, REASON_USER);
    CloseIdShrinks(cfg, q, n.id, REASON_USER);
    OnceShrinks(Id, q, CloseId(cfg, q, n.id, REASON_USER));
  }

  lemma NextNotice(log: seq<Event>, s: seq<Note>, reason: int)
    requires s != []
    ensures log + Notice(s[0], reason) + Notices(s[1..], reason) == log + Notices(s, reason)
  {
  }

  lemma {:induction false} AllDisplayedTold(cfg: Settings, q: Queues)
    requires Once(Id, q)
    ensures var r := CloseDisplayed(cfg, q);
            r.log == q.log + Notices(q.displayed, 2) && r.waiting == q.waiting && r.displayed == []
    decreases |q.displayed|
  {
    if q.displayed != [] {
      TopTold(cfg, q);
      AllDisplayedTold(cfg, CloseId(cfg, q, q.displayed[0].id, REASON_USER));
      NextNotice(q.log, q.displayed, 2);
    }
  }

  lemma {:induction false} AllWaitingTold(cfg: Settings, q: Queues)
    requires Once(Id, q)
    ensures CloseWaiting(cfg, q).log == q.log + Notices(q.waiting, 2)
    decreases |q.waiting|
  {
    if q.waiting != [] {
      HeadTold(cfg, q);
      AllWaitingTold(cfg, CloseId(cfg, q, q.waiting[0].id, REASON_USER));
      NextNotice(q.log, q.waiting, 2);
    }
  }

  /** Closing everything tells every client once that the user did it, from the top of the screen
      down and then along the queue. */
  lemma CloseAllTells(cfg: Settings, q: Queues)
    requires Once(Id, q)
    ensures HistoryPushAll(cfg, q).log == q.log + Notices(q.displayed, 2) + Notices(q.waiting, 2)
  {
    AllDisplayedTold(cfg, q);
    forall x: int ensures Current(Id, x, CloseDisplayed(cfg, q)) <= 1 {
      assert Current(Id, x, q) <= 1;
    }
    AllWaitingTold(cfg, CloseDisplayed(cfg, q));
  }

  // ---------- the update ----------

  /** What the client of a displayed notification hears in an update: the reason of the mark; 1
      when it is to be skipped or its time is up; 4 when fullscreen mode suppresses it. */
  function OnScreenNotice(n: Note, status: Status, time: int): seq<Event> {
    if n.locked then []
    else if n.closeMark != 0 then Notice(n, if n.closeMark <= 4 then n.closeMark else 4)
    else if n.removeMark != 0 then Notice(n, if n.removeMark <= 4 then n.removeMark else 4)
    else if || (n.skipDisplay && !n.redisplayed)
            || (&& n.timeout != 0 && time - n.start > n.timeout
                && (n.transient || !(status.mouseOver || (status.idle && !status.fullscreen)))) then Notice(n, 1)
    else if status.fullscreen && n.fullscreen == FsSuppress then Notice(n, 4)
    else []
  }

  function OnScreenNotices(s: seq<Note>, status: Status, time: int): seq<Event> {
    if s == [] then [] else OnScreenNotice(s[0], status, time) + OnScreenNotices(s[1..], status, time)
  }

  /** What the clients of waiting notifications hear, as long as there is room on screen: 4 when
      fullscreen mode suppresses theirs, 2 when it is to be skipped although nothing holds it back.
      One that nothing holds back and that is not skipped takes a place. */
  function WaitingNotices(w: seq<Note>, status: Status, room: int): seq<Event> {
    if w == [] || room <= 0 then []
    else if status.fullscreen && w[0].fullscreen == FsSuppress then
      Notice(w[0], 4) + WaitingNotices(w[1..], status, room)
    else if status.pauseLevel > w[0].overridePauseLevel || (status.fullscreen && w[0].fullscreen != FsShow) then
      WaitingNotices(w[1..], status, room)
    else if w[0].skipDisplay && !w[0].redisplayed then
      Notice(w[0], 2) + WaitingNotices(w[1..], status, room)
    else WaitingNotices(w[1..], status, room - 1)
  }

  lemma CloseChangedTells(cfg: Settings, q: Queues, i: nat, m: Note, reason: int)
    requires Once(Id, q) && i < |q.displayed| && SameIdentity(q.displayed[i], m)
    ensures var c := SetDisplayed(q, i, m);
            && CloseId(cfg, c, m.id, reason).log
               == q.log + Notice(q.displayed[i], if 1 <= reason <= 4 then reason else 4)
            && RemoveId(cfg, c, m.id, reason).log == CloseId(cfg, c, m.id, reason).log
  {
    var c := SetDisplayed(q, i, m);
    SetDisplayedShrinks(q, i, m);
    OnceShrinks(Id, q, c);
    CloseDisplayedTells(cfg, c, i, reason);
  }

  lemma SweepStepTells(cfg: Settings, status: Status, time: int, clock: nat -> int, q: Queues, i: nat)
    requires Once(Id, q) && i < |q.displayed|
    ensures SweepStep(cfg, status, time, clock, q, i).0.log == q.log + OnScreenNotice(q.displayed[i], status, time)
  {
    var n := q.displayed[i];
    if n.locked {
    } else if n.closeMark != 0 {
      CloseChangedTells(cfg, q, i, n.(closeMark := 0), n.closeMark);
    } else if n.removeMark != 0 {
      CloseChangedTells(cfg, q, i, n.(removeMark := 0), n.removeMark);
    } else {
      SweepUnmarkedTells(cfg, status, time, clock, q, i);
    }
  }

  lemma UnmarkedNotice(n: Note, status: Status, time: int, clock: nat -> int)
    requires !n.locked && n.closeMark == 0 && n.removeMark == 0
    ensures OnScreenNotice(n, status, time)
            == if IsFinished(n, status, time) then Notice(n, 1)
               else if Suppressed(Touched(n, status, clock(n.key)), status) then Notice(n, 4) else []
  {
  }

  lemma SweepUnmarkedTells(cfg: Settings, status: Status, time: int, clock: nat -> int, q: Queues, i: nat)
    requires Once(Id, q) && i < |q.displayed|
    requires var n := q.displayed[i]; !n.locked && n.closeMark == 0 && n.removeMark == 0
    ensures SweepUnmarked(cfg, status, time, clock, q, i).0.log
            == q.log + OnScreenNotice(q.displayed[i], status, time)
  {
    var n := q.displayed[i];
    var t := Touched(n, status, clock(n.key));
    UnmarkedNotice(n, status, time, clock);
    if IsFinished(n, status, time) {
      CloseDisplayedTells(cfg, q, i, REASON_TIME);
    } else if Suppressed(t, status) {
      CloseChangedTells(cfg, q, i, t, REASON_UNDEF);
    } else {
      assert SweepUnmarked(cfg, status, time, clock, q, i).0.log == q.log;
    }
  }

  /** A turn of the first loop, and what is left for the turns after it. */
  lemma SweepTurn(cfg: Settings, status: Status, time: int, clock: nat -> int, q: Queues, i: nat)
    requires Once(Id, q) && i < |q.displayed|
    ensures var s := SweepStep(cfg, status, time, clock, q, i);
            && Once(Id, s.0) && s.1 <= |s.0.displayed| && s.0.displayed[s.1..] == q.displayed[i + 1..]
            && s.0.log == q.log + OnScreenNotice(q.displayed[i], status, time)
  {
    SweepStepTells(cfg, status, time, clock, q, i);
    SweepStepFate(cfg, status, time, clock, q, i);
    SweepStepThins(cfg, status, time, clock, q, i);
    OnceShrinks(Id, q, SweepStep(cfg, status, time, clock, q, i).0);
  }

  lemma NoticesFrom(log: seq<Event>, s: seq<Note>, i: nat, status: Status, time: int)
    requires i < |s|
    ensures log + OnScreenNotice(s[i], status, time) + OnScreenNotices(s[i + 1..], status, time)
            == log + OnScreenNotices(s[i..], status, time)
  {
    assert s[i..][1..] == s[i + 1..];
  }

  lemma {:induction false} SweepTells(cfg: Settings, status: Status, time: int, clock: nat -> int, q: Queues, i: nat)
    requires Once(Id, q) && i <= |q.displayed|
    ensures Sweep(cfg, status, time, clock, q, i).log == q.log + OnScreenNotices(q.displayed[i..], status, time)
    decreases |q.displayed| - i
  {
    if i < |q.displayed| {
      var s := SweepStep(cfg, status, time, clock, q, i);
      SweepTurn(cfg, status, time, clock, q, i);
      SweepTells(cfg, status, time, clock, s.0, s.1);
      NoticesFrom(q.log, q.displayed, i, status, time);
    }
  }

  lemma CloseStartedTells(cfg: Settings, q: Queues, i: nat, time: int, reason: int)
    requires Once(Id, q) && i < |q.waiting| && 1 <= reason <= 4
    ensures var n := q.waiting[i];
            CloseId(cfg, SetWaiting(q, i, n.(start := time)), n.id, reason).log == q.log + Notice(n, reason)
  {
    var n := q.waiting[i].(start := time);
    SetWaitingShrinks(q, i, n);
    OnceShrinks(Id, q, SetWaiting(q, i, n));
    CloseWaitingTells(cfg, SetWaiting(q, i, n), i, reason);
  }

  /** What was said when the second loop comes to `i`, and what it is going to say. */
  function ToldFrom(status: Status, limit: int, q: Queues, i: nat): seq<Event>
    requires i <= |q.waiting|
  {
    q.log + WaitingNotices(q.waiting[i..], status, limit - |q.displayed|)
  }

  lemma ToldNext(status: Status, limit: int, q: Queues, i: nat)
    requires i < |q.waiting| && |q.displayed| < limit
    ensures var n, later := q.waiting[i], q.waiting[i + 1..];
            var room := limit - |q.displayed|;
            ToldFrom(status, limit, q, i)
            == q.log + (if Skips(n, status)
                        then Notice(n, if Suppressed(n, status) then 4 else 2) + WaitingNotices(later, status, room)
                        else WaitingNotices(later, status, if TakesPlace(n, status) then room - 1 else room))
  {
    assert q.waiting[i..][1..] == q.waiting[i + 1..];
  }

  lemma PromoteTurnTells(cfg: Settings, status: Status, time: int, q: Queues, i: nat)
    requires Once(Id, q) && i < |q.waiting|
    ensures var n, s := q.waiting[i], PromoteStep(cfg, status, time, q, i);
            && s.1 <= |s.0.waiting| && s.0.waiting[s.1..] == q.waiting[i + 1..]
            && s.0.log == q.log + (if Skips(n, status)
                                   then Notice(n, if Suppressed(n, status) then 4 else 2) else [])
            && |s.0.displayed| == |q.displayed| + (if TakesPlace(n, status) then 1 else 0)
  {
    PromoteStepFate(cfg, status, time, q, i);
    CloseStartedTells(cfg, q, i, time, REASON_UNDEF);
    CloseStartedTells(cfg, q, i, time, REASON_USER);
    RemoveSlices(q.waiting, i);
  }

  lemma ToldAlike(status: Status, limit: int, q: Queues, i: nat, s: (Queues, nat), n: Note)
    requires i < |q.waiting| && |q.displayed| < limit && n == q.waiting[i]
    requires s.1 <= |s.0.waiting| && s.0.waiting[s.1..] == q.waiting[i + 1..]
    requires s.0.log == q.log + (if Skips(n, status)
                                 then Notice(n, if Suppressed(n, status) then 4 else 2) else [])
    requires |s.0.displayed| == |q.displayed| + (if TakesPlace(n, status) then 1 else 0)
    ensures ToldFrom(status, limit, s.0, s.1) == ToldFrom(status, limit, q, i)
  {
    ToldNext(status, limit, q, i);
  }

  /** A turn of the second loop, likewise. */
  lemma PromoteTurn(cfg: Settings, status: Status, time: int, limit: int, q: Queues, i: nat)
    requires Once(Id, q) && i < |q.waiting| && |q.displayed| < limit
    ensures var s := PromoteStep(cfg, status, time, q, i);
            Once(Id, s.0) && s.1 <= |s.0.waiting| && ToldFrom(status, limit, s.0, s.1) == ToldFrom(status, limit, q, i)
  {
    var s := PromoteStep(cfg, status, time, q, i);
    PromoteTurnTells(cfg, status, time, q, i);
    ToldAlike(status, limit, q, i, s, q.waiting[i]);
    PromoteStepShrinks(cfg, status, time, q, i);
    OnceShrinks(Id, q, s.0);
  }

  lemma NothingToTell(status: Status, limit: int, q: Queues, i: nat)
    requires i <= |q.waiting| && (i == |q.waiting| || |q.displayed| >= limit)
    ensures ToldFrom(status, limit, q, i) == q.log
  {
  }

  lemma {:induction false} PromoteTells(cfg: Settings, status: Status, time: int, limit: int, q: Queues, i: nat)
    requires Once(Id, q) && i <= |q.waiting|
    ensures Promote(cfg, status, time, limit, q, i).log == ToldFrom(status, limit, q, i)
    decreases |q.waiting| - i
  {
    if i == |q.waiting| || |q.displayed| >= limit {
      NothingToTell(status, limit, q, i);
    } else {
      var s := PromoteStep(cfg, status, time, q, i);
      PromoteTurn(cfg, status, time, limit, q, i);
      PromoteTells(cfg, status, time, limit, s.0, s.1);
    }
  }

  lemma {:induction false} LaterLoopsAreQuiet(cfg: Settings, status: Status, time: int, limit: int, q: Queues)
    requires 0 <= limit
    ensures Trim(cfg, limit, q).log == q.log
    decreases |q.displayed|
  {
    if |q.displayed| > limit {
      LaterLoopsAreQuiet(cfg, status, time, limit, ToWaiting(cfg, q, |q.displayed| - 1));
    }
  }

  lemma {:induction false} SeepIsQuiet(cfg: Settings, status: Status, time: int, q: Queues)
    ensures Seep(cfg, status, time, q).log == q.log
    decreases UrgencyInversions(cfg, q.displayed, q.waiting), AllDescents(cfg, q.displayed, q.waiting),
              Depth(cfg, q.displayed, q.waiting)
  {
    if Seeps(cfg, status, q) {
      SwapDecreases(cfg, status, time, q);
      SeepIsQuiet(cfg, status, time, Swap(cfg, time, q));
    }
  }

  /** One that is held back neither says anything nor takes a place. */
  lemma {:induction false} InsertIsQuiet(cfg: Settings, w: seq<Note>, n: Note, status: Status, room: int)
    requires !Skips(n, status) && !TakesPlace(n, status)
    ensures WaitingNotices(InsertSorted(cfg, w, n), status, room) == WaitingNotices(w, status, room)
  {
    var r := InsertSorted(cfg, w, n);
    if room <= 0 {
    } else if w == [] || Cmp(cfg, w[0], n) >= 0 {
      assert r[1..] == w;
    } else {
      assert r[0] == w[0] && r[1..] == InsertSorted(cfg, w[1..], n);
      InsertIsQuiet(cfg, w[1..], n, status, room);
      InsertIsQuiet(cfg, w[1..], n, status, room - 1);
    }
  }

  lemma {:induction false} InsertAllIsQuiet(cfg: Settings, w: seq<Note>, s: seq<Note>, status: Status, room: int)
    requires forall n | n in s :: !Skips(n, status) && !TakesPlace(n, status)
    ensures WaitingNotices(InsertAll(cfg, w, s), status, room) == WaitingNotices(w, status, room)
    decreases |s|
  {
    if s != [] {
      assert s[0] in s;
      InsertIsQuiet(cfg, w, s[0], status, room);
      InsertAllIsQuiet(cfg, InsertSorted(cfg, w, s[0]), s[1..], status, room);
    }
  }

  lemma SweptTells(cfg: Settings, status: Status, time: int, clock: nat -> int, q: Queues, room: int)
    requires Once(Id, q)
    ensures var s := AfterSweep(cfg, status, time, clock, q);
            && s.log == q.log + OnScreenNotices(q.displayed, status, time)
            && WaitingNotices(s.waiting, status, room) == WaitingNotices(q.waiting, status, room)
  {
    SweepTells(cfg, status, time, clock, q, 0);
    SweepSplits(cfg, status, time, clock, q, 0);
    assert q.displayed[0..] == q.displayed;
    ReturnedIsHeldBack(q.displayed, status, time, clock);
    InsertAllIsQuiet(cfg, q.waiting, Look(Returning(q.displayed, status, time), status, clock), status, room);
  }

  lemma PromotedTells(cfg: Settings, status: Status, time: int, clock: nat -> int, q: Queues, s: Queues)
    requires Once(Id, s) && s == AfterSweep(cfg, status, time, clock, q)
    ensures Updated(cfg, status, time, clock, q).log
            == s.log + WaitingNotices(s.waiting, status, Limit(cfg, s) - |s.displayed|)
  {
    PromoteTells(cfg, status, time, Limit(cfg, s), s, 0);
    assert s.waiting[0..] == s.waiting;
    LaterLoopsAreQuiet(cfg, status, time, Limit(cfg, s), AfterPromote(cfg, status, time, clock, q));
    SeepIsQuiet(cfg, status, time, AfterTrim(cfg, status, time, clock, q));
  }

  lemma UpdateTellsFrom(cfg: Settings, status: Status, time: int, clock: nat -> int, q: Queues, s: Queues)
    requires Once(Id, q) && s == AfterSweep(cfg, status, time, clock, q)
    ensures Updated(cfg, status, time, clock, q).log
            == s.log + WaitingNotices(s.waiting, status, FreeRows(cfg, status, time, q))
  {
    RoomIsFreeRows(cfg, status, time, clock, q);
    SweepThins(cfg, status, time, clock, q, 0);
    OnceShrinks(Id, q, s);
    PromotedTells(cfg, status, time, clock, q, s);
  }

  /** All that the bus hears of an update, in order: the notices for what is on screen, then those
      for what waits, as far as there are free rows. Nothing else is said. */
  lemma UpdateTells(cfg: Settings, status: Status, time: int, clock: nat -> int, q: Queues)
    requires Once(Id, q)
    ensures Updated(cfg, status, time, clock, q).log
            == q.log + OnScreenNotices(q.displayed, status, time)
               + WaitingNotices(q.waiting, status, FreeRows(cfg, status, time, q))
  {
    SweptTells(cfg, status, time, clock, q, FreeRows(cfg, status, time, q));
    UpdateTellsFrom(cfg, status, time, clock, q, AfterSweep(cfg, status, time, clock, q));
  }

  lemma {:induction false} NoticeAmong(s: seq<Note>, i: nat, status: Status, time: int)
    requires i < |s|
    ensures forall e | e in OnScreenNotice(s[i], status, time) :: e in OnScreenNotices(s, status, time)
  {
    if i > 0 { NoticeAmong(s[1..], i - 1, status, time); }
  }

  lemma MarkedIsClosed(cfg: Settings, status: Status, time: int, clock: nat -> int, c: Queues, m: Note)
    requires Once(Id, c) && Once(Key, c) && m in c.displayed && !m.locked && (m.closeMark != 0 || m.removeMark != 0)
    ensures !LiveKey(Updated(cfg, status, time, clock, c), m.key)
  {
    DisplayedClosesIff(cfg, status, time, clock, c, m);
  }

  lemma MarkedIsTold(cfg: Settings, status: Status, time: int, clock: nat -> int, c: Queues, i: nat, reason: nat)
    requires Once(Id, c) && i < |c.displayed| && 1 <= reason <= 4
    requires var m := c.displayed[i];
             !m.locked && (m.closeMark == reason || (m.closeMark == 0 && m.removeMark == reason))
    ensures var m := c.displayed[i];
            m.dbusValid && !m.redisplayed ==> Closed(m.key, m.id, reason) in Updated(cfg, status, time, clock, c).log
  {
    UpdateTells(cfg, status, time, clock, c);
    NoticeAmong(c.displayed, i, status, time);
  }

  /** A click that marks a notification on screen to be closed or removed is carried out by the next
      update: the notification is gone from screen and queue, and its client heard the reason. */
  lemma ClickIsCarriedOut(cfg: Settings, status: Status, time: int, clock: nat -> int, q: Queues, i: nat,
                          closeMark: nat, removeMark: nat)
    requires Once(Id, q) && Once(Key, q) && i < |q.displayed|
    requires 1 <= closeMark <= 4 || (closeMark == 0 && 1 <= removeMark <= 4)
    ensures var n := q.displayed[i];
            var r := Step(cfg, Step(cfg, q, Flag(i, false, closeMark, removeMark)), Refresh(status, time, clock));
            && !LiveKey(r, n.key)
            && (n.dbusValid && !n.redisplayed ==>
                  Closed(n.key, n.id, if closeMark != 0 then closeMark else removeMark) in r.log)
  {
    var m := q.displayed[i].(locked := false, closeMark := closeMark, removeMark := removeMark);
    var c := SetDisplayed(q, i, m);
    SetDisplayedShrinks(q, i, m);
    OnceShrinks(Id, q, c);
    OnceShrinks(Key, q, c);
    assert c.displayed[i] == m;
    MarkedIsClosed(cfg, status, time, clock, c, m);
    MarkedIsTold(cfg, status, time, clock, c, i, if closeMark != 0 then closeMark else removeMark);
    assert Step(cfg, q, Flag(i, false, closeMark, removeMark)) == c;
  }

  // ---------- actions ----------

  /** A click reports the default action if the notification offers it; else, when no default was
      configured, its only action; else nothing. */
  lemma ClickReports(q: Queues, i: nat)
    requires i < |q.displayed|
    ensures var n, r := q.displayed[i], DoAction(q, i);
            && r == q.(log := r.log)
            && (n.defaultAction in n.actions && n.dbusValid ==>
                  r.log == q.log + [ActionInvoked(n.key, n.id, n.defaultAction)])
            && (forall a | n.actions == {a} && n.defaultAction == "default" && n.dbusValid ::
                  r.log == q.log + [ActionInvoked(n.key, n.id, a)])
            && (n.defaultAction !in n.actions && (n.defaultAction != "default" || |n.actions| != 1) ==> r == q)
            && (!n.dbusValid ==> r == q)
  {
  }

  /** What a click that reports nothing leads to: the menu where there are actions to choose from or
      more URLs than one, the browser for a single URL, and nothing without either. */
  lemma ClickOpens(n: Note, urls: Option<string>)
    requires n.defaultAction !in n.actions && (n.defaultAction != "default" || |n.actions| != 1)
    ensures n.actions != {} ==> NextOf(n, urls) == OpenMenu
    ensures n.actions == {} && urls == None ==> NextOf(n, urls) == Nothing
    ensures forall u | n.actions == {} && urls == Some(u) ::
              NextOf(n, urls) == if '\n' in u then OpenMenu else OpenBrowser(u)
  {
  }

  /** Where an action is reported nothing else is opened. */
  lemma ReportedAndDone(n: Note, urls: Option<string>)
    requires n.defaultAction in n.actions || (n.defaultAction == "default" && |n.actions| == 1)
    ensures NextOf(n, urls) == Nothing
  {
  }

  /** The menu reports the chosen action for a notification on screen that has the id and offers
      it, and nothing when there is none. */
  lemma MenuReports(q: Queues, n: Note, action: string)
    requires OnceOnScreen(q)
    ensures n in q.displayed && action in n.actions && n.dbusValid ==>
              InvokeAction(q, n.id, action) == q.(log := q.log + [ActionInvoked(n.key, n.id, action)])
    ensures (forall m | m in q.displayed && m.id == n.id :: action !in m.actions || !m.dbusValid) ==>
              InvokeAction(q, n.id, action) == q
  {
    var i := IndexOfAction(q.displayed, n.id, action);
    if i < |q.displayed| {
      assert q.displayed[i] in q.displayed;
    }
    if n in q.displayed {
      var j :| 0 <= j < |q.displayed| && q.displayed[j] == n;
      UniqueOnScreen(q, j);
      if i < |q.displayed| { UniqueOnScreen(q, i); }
      if action in n.actions { ActionFound(q.displayed, j, n.id, action); }
    }
  }

  lemma {:induction false} ActionFound(s: seq<Note>, j: nat, id: int, action: string)
    requires j < |s| && s[j].id == id && action in s[j].actions
    ensures IndexOfAction(s, id, action) <= j
  {
    if j > 0 { ActionFound(s[1..], j - 1, id, action); }
  }
}
