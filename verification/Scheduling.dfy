/** What one update decides: who is on screen, who waits, and that a second update right
    afterwards finds nothing left to do. */
module Scheduling {
  import opened Notifications
  import opened SortedQueue
  import opened Seeping
  import opened QueueSpec
  import opened Update
  import opened Conservation
  import opened Distinct

  // ---------- best-k selection ----------

  lemma {:induction false} SeepEnds(cfg: Settings, status: Status, time: int, q: Queues)
    ensures var r := Seep(cfg, status, time, q);
            && !Seeps(cfg, status, r)
            && |r.displayed| == |q.displayed| && |r.waiting| == |q.waiting|
    decreases UrgencyInversions(cfg, q.displayed, q.waiting), AllDescents(cfg, q.displayed, q.waiting),
              Depth(cfg, q.displayed, q.waiting)
  {
    if Seeps(cfg, status, q) {
      SwapDecreases(cfg, status, time, q);
      SeepEnds(cfg, status, time, Swap(cfg, time, q));
    }
  }

  lemma {:induction false} TrimEnds(cfg: Settings, limit: int, q: Queues)
    requires 0 <= limit
    ensures var r := Trim(cfg, limit, q);
            && |r.displayed| == (if |q.displayed| <= limit then |q.displayed| else limit)
            && |r.displayed| + |r.waiting| == |q.displayed| + |q.waiting|
    decreases |q.displayed|
  {
    if |q.displayed| > limit {
      TrimEnds(cfg, limit, ToWaiting(cfg, q, |q.displayed| - 1));
    }
  }

  /** The lengths an update ends with. */
  lemma UpdateLengths(cfg: Settings, status: Status, time: int, clock: nat -> int, q: Queues)
    ensures var r, t := Updated(cfg, status, time, clock, q), AfterTrim(cfg, status, time, clock, q);
            && |r.displayed| == |t.displayed| <= LimitOf(cfg, status, time, clock, q)
            && |r.waiting| == |t.waiting|
    ensures var r, p := Updated(cfg, status, time, clock, q), AfterPromote(cfg, status, time, clock, q);
            |r.displayed| + |r.waiting| == |p.displayed| + |p.waiting|
  {
    var limit := LimitOf(cfg, status, time, clock, q);
    TrimEnds(cfg, limit, AfterPromote(cfg, status, time, clock, q));
    SeepEnds(cfg, status, time, AfterTrim(cfg, status, time, clock, q));
  }

  /** The head of waiting may be shown, or nothing waits. */
  predicate HeadReady(status: Status, q: Queues) {
    q.waiting == [] || IsReady(q.waiting[0], status, false)
  }

  /** When an update in a sorting mode ends with a full screen and a head of waiting that
      may be shown, nothing that waits ranks above anything displayed. */
  lemma FullScreenShowsTheBest(cfg: Settings, base: int, status: Status, time: int, clock: nat -> int, q: Queues)
    requires Comparable(cfg, base, q) && Sorted(cfg, q.displayed) && Sorted(cfg, q.waiting)
    requires cfg.sort != SortType.ById
    requires var r := Updated(cfg, status, time, clock, q);
             |r.displayed| == LimitOf(cfg, status, time, clock, q) && HeadReady(status, r)
    ensures var r := Updated(cfg, status, time, clock, q);
            forall d, w | d in r.displayed && w in r.waiting :: Rank(cfg, d) <= Rank(cfg, w)
  {
    var r, t := Updated(cfg, status, time, clock, q), AfterTrim(cfg, status, time, clock, q);
    UpdateKeepsSorted(cfg, base, status, time, clock, q);
    UpdateLengths(cfg, status, time, clock, q);
    TrimmedOrdered(cfg, base, false, status, time, clock, q);
    SeepEnds(cfg, status, time, t);
    forall d, w | d in r.displayed && w in r.waiting ensures Rank(cfg, d) <= Rank(cfg, w) {
      var last := r.displayed[|r.displayed| - 1];
      var i :| 0 <= i < |r.displayed| && r.displayed[i] == d;
      var j :| 0 <= j < |r.waiting| && r.waiting[j] == w;
      assert last in r.displayed && r.waiting[0] in r.waiting;
      CmpIsRankOrder(cfg, base, last, r.waiting[0]);
      assert Rank(cfg, d) <= Rank(cfg, last) && Rank(cfg, r.waiting[0]) <= Rank(cfg, w);
    }
  }

  // ---------- who may be shown ----------

  /** What every displayed notification satisfies after an update: unless a menu holds it,
      it may be shown and its time is not up. */
  predicate Fit(n: Note, status: Status, time: int) {
    || n.locked
    || (&& IsReady(n, status, true)
        && !Suppressed(n, status)
        && (n.timeout > 0 ==> time <= n.start + n.timeout))
  }

  predicate AllFit(s: seq<Note>, status: Status, time: int) {
    forall n | n in s :: Fit(n, status, time)
  }

  /** Held back from an empty place on screen. */
  predicate Blocked(n: Note, status: Status) {
    !IsReady(n, status, false) && !Suppressed(n, status)
  }

  predicate AllBlocked(s: seq<Note>, status: Status) {
    forall n | n in s :: Blocked(n, status)
  }

  /** What a turn of the first loop does to displayed: the notification at `i` leaves, or
      it stays because it is fit. */
  ghost predicate TakesOrKeeps(q: Queues, i: nat, s: (Queues, nat), status: Status, time: int)
    requires i < |q.displayed|
  {
    || (s.1 == i && s.0.displayed == RemoveAt(q.displayed, i))
    || (&& s.1 == i + 1 && |s.0.displayed| == |q.displayed|
        && s.0.displayed == q.displayed[i := s.0.displayed[i]]
        && Fit(s.0.displayed[i], status, time))
  }

  lemma CloseTakes(cfg: Settings, q: Queues, c: Queues, i: nat, n: Note, reason: int, status: Status, time: int)
    requires OnceOnScreen(q) && i < |q.displayed| && c == SetDisplayed(q, i, n) && SameIdentity(q.displayed[i], n)
    ensures TakesOrKeeps(q, i, (CloseId(cfg, c, n.id, reason), i), status, time)
    ensures TakesOrKeeps(q, i, (RemoveId(cfg, c, n.id, reason), i), status, time)
  {
    SetDisplayedShrinks(q, i, n);
    OnceOnScreenShrinks(q, c);
    UniqueOnScreen(c, i);
    CloseIdQueues(cfg, c, n.id, reason);
    assert RemoveAt(c.displayed, i) == RemoveAt(q.displayed, i);
  }

  /** With distinct ids on screen, closing takes out exactly the notification the loop looks at. */
  lemma SweepStepEffect(cfg: Settings, status: Status, time: int, clock: nat -> int, q: Queues, i: nat)
    requires OnceOnScreen(q) && i < |q.displayed| && forall k :: time <= clock(k)
    ensures TakesOrKeeps(q, i, SweepStep(cfg, status, time, clock, q, i), status, time)
  {
    var n := q.displayed[i];
    assert SetDisplayed(q, i, n) == q;
    if n.locked {
    } else if n.closeMark != 0 {
      var c := SetDisplayed(q, i, n.(closeMark := 0));
      CloseTakes(cfg, q, c, i, n.(closeMark := 0), n.closeMark, status, time);
    } else if n.removeMark != 0 {
      var c := SetDisplayed(q, i, n.(removeMark := 0));
      CloseTakes(cfg, q, c, i, n.(removeMark := 0), n.removeMark, status, time);
    } else {
      SweepUnmarkedEffect(cfg, status, time, clock, q, i);
    }
  }

  lemma SweepUnmarkedEffect(cfg: Settings, status: Status, time: int, clock: nat -> int, q: Queues, i: nat)
    requires OnceOnScreen(q) && i < |q.displayed| && forall k :: time <= clock(k)
    ensures TakesOrKeeps(q, i, SweepUnmarked(cfg, status, time, clock, q, i), status, time)
  {
    var n := q.displayed[i];
    var t := Touched(n, status, clock(n.key));
    assert SetDisplayed(q, i, n) == q;
    if IsFinished(n, status, time) {
      CloseTakes(cfg, q, q, i, n, REASON_TIME, status, time);
    } else {
      var q' := SetDisplayed(q, i, t);
      if Suppressed(t, status) {
        CloseTakes(cfg, q, q', i, t, REASON_UNDEF, status, time);
      } else if !IsReady(t, status, true) {
        assert RemoveAt(q'.displayed, i) == RemoveAt(q.displayed, i);
      }
    }
  }

  lemma {:induction false} SweepLeavesFit(cfg: Settings, status: Status, time: int, clock: nat -> int, q: Queues,
                                          i: nat)
    requires OnceOnScreen(q) && i <= |q.displayed| && forall k :: time <= clock(k)
    requires AllFit(q.displayed[..i], status, time)
    ensures AllFit(Sweep(cfg, status, time, clock, q, i).displayed, status, time)
    decreases |q.displayed| - i
  {
    if i == |q.displayed| {
      assert q.displayed[..i] == q.displayed;
    } else {
      var s := SweepStep(cfg, status, time, clock, q, i);
      SweepStepEffect(cfg, status, time, clock, q, i);
      SweepStepThins(cfg, status, time, clock, q, i);
      OnceOnScreenShrinks(q, s.0);
      if s.1 == i {
        assert s.0.displayed[..i] == q.displayed[..i];
      } else {
        assert s.0.displayed[..i + 1] == q.displayed[..i] + [s.0.displayed[i]];
      }
      SweepLeavesFit(cfg, status, time, clock, s.0, s.1);
    }
  }

  lemma CloseStartedTakes(cfg: Settings, q: Queues, i: nat, time: int, reason: int)
    requires Once(Id, q) && i < |q.waiting|
    ensures var n := q.waiting[i];
            var c := CloseId(cfg, SetWaiting(q, i, n.(start := time)), n.id, reason);
            c.displayed == q.displayed && c.waiting == RemoveAt(q.waiting, i)
  {
    var n := q.waiting[i];
    var q' := SetWaiting(q, i, n.(start := time));
    SetWaitingShrinks(q, i, n.(start := time));
    OnceShrinks(Id, q, q');
    UniqueIndex(q', i);
    IdInOneQueue(q', n.id);
    CloseIdQueues(cfg, q', n.id, reason);
    assert RemoveAt(q'.waiting, i) == RemoveAt(q.waiting, i);
  }

  lemma PromoteStepEffect(cfg: Settings, status: Status, time: int, q: Queues, i: nat)
    requires Once(Id, q) && i < |q.waiting|
    ensures var s := PromoteStep(cfg, status, time, q, i);
            || (s.1 == i && s.0.waiting == RemoveAt(q.waiting, i))
            || (s.1 == i + 1 && s.0 == q && Blocked(q.waiting[i], status))
  {
    var n := q.waiting[i];
    if Suppressed(n, status) {
      CloseStartedTakes(cfg, q, i, time, REASON_UNDEF);
    } else if IsReady(n, status, false) && n.skipDisplay && !n.redisplayed {
      CloseStartedTakes(cfg, q, i, time, REASON_USER);
    }
  }

  lemma {:induction false} PromoteLeavesBlocked(cfg: Settings, status: Status, time: int, limit: int, q: Queues, i: nat)
    requires Once(Id, q) && i <= |q.waiting| && AllBlocked(q.waiting[..i], status)
    ensures var r := Promote(cfg, status, time, limit, q, i); |r.displayed| < limit ==> AllBlocked(r.waiting, status)
    decreases |q.waiting| - i
  {
    if i == |q.waiting| || |q.displayed| >= limit {
      assert i == |q.waiting| ==> q.waiting[..i] == q.waiting;
    } else {
      var s := PromoteStep(cfg, status, time, q, i);
      PromoteStepEffect(cfg, status, time, q, i);
      PromoteStepShrinks(cfg, status, time, q, i);
      OnceShrinks(Id, q, s.0);
      if s.1 == i {
        assert s.0.waiting[..i] == q.waiting[..i];
      } else {
        assert s.0.waiting[..i + 1] == q.waiting[..i] + [q.waiting[i]];
      }
      PromoteLeavesBlocked(cfg, status, time, limit, s.0, s.1);
    }
  }

  lemma PromoteStepFits(cfg: Settings, status: Status, time: int, q: Queues, i: nat)
    requires i < |q.waiting|
    ensures var r := PromoteStep(cfg, status, time, q, i).0;
            && (AllFit(q.displayed, status, time) ==> AllFit(r.displayed, status, time))
            && |r.displayed| + |r.waiting| <= |q.displayed| + |q.waiting|
  {
    var n := q.waiting[i];
    var c := SetWaiting(q, i, n.(start := time));
    CloseIdMembers(cfg, c, n.id, REASON_UNDEF);
    CloseIdMembers(cfg, c, n.id, REASON_USER);
    InsertMembers(cfg, q.displayed, n.(start := time));
  }

  /** Whatever ids there are, the second loop shows what is fit, and no turn of it makes the two
      queues longer together. */
  lemma {:induction false} PromoteFits(cfg: Settings, status: Status, time: int, limit: int, q: Queues, i: nat)
    requires i <= |q.waiting|
    ensures var r := Promote(cfg, status, time, limit, q, i);
            && (AllFit(q.displayed, status, time) ==> AllFit(r.displayed, status, time))
            && |r.displayed| + |r.waiting| <= |q.displayed| + |q.waiting|
    decreases |q.waiting| - i
  {
    if i < |q.waiting| && |q.displayed| < limit {
      var s := PromoteStep(cfg, status, time, q, i);
      PromoteStepFits(cfg, status, time, q, i);
      PromoteFits(cfg, status, time, limit, s.0, s.1);
    }
  }

  lemma {:induction false} TrimLeavesFit(cfg: Settings, limit: int, q: Queues, status: Status, time: int)
    requires 0 <= limit && AllFit(q.displayed, status, time)
    ensures AllFit(Trim(cfg, limit, q).displayed, status, time)
    decreases |q.displayed|
  {
    if |q.displayed| > limit {
      TrimLeavesFit(cfg, limit, ToWaiting(cfg, q, |q.displayed| - 1), status, time);
    }
  }

  lemma {:induction false} SeepLeavesFit(cfg: Settings, status: Status, time: int, q: Queues)
    requires AllFit(q.displayed, status, time)
    ensures AllFit(Seep(cfg, status, time, q).displayed, status, time)
    decreases UrgencyInversions(cfg, q.displayed, q.waiting), AllDescents(cfg, q.displayed, q.waiting),
              Depth(cfg, q.displayed, q.waiting)
  {
    if Seeps(cfg, status, q) {
      SwapDecreases(cfg, status, time, q);
      InsertMembers(cfg, q.displayed[..|q.displayed| - 1], q.waiting[0].(start := time));
      SeepLeavesFit(cfg, status, time, Swap(cfg, time, q));
    }
  }

  lemma TrimIsIdle(cfg: Settings, limit: int, q: Queues)
    requires 0 <= limit && |q.displayed| <= limit
    ensures Trim(cfg, limit, q) == q
  {
  }

  /** After an update everything displayed that no menu holds may be shown and is not overdue,
      if no two notifications on screen shared an id before it. */
  lemma UpdateLeavesFit(cfg: Settings, status: Status, time: int, clock: nat -> int, q: Queues)
    requires OnceOnScreen(q) && forall k :: time <= clock(k)
    ensures AllFit(Updated(cfg, status, time, clock, q).displayed, status, time)
  {
    var s, p := AfterSweep(cfg, status, time, clock, q), AfterPromote(cfg, status, time, clock, q);
    SweepLeavesFit(cfg, status, time, clock, q, 0);
    PromoteFits(cfg, status, time, Limit(cfg, s), s, 0);
    TrimLeavesFit(cfg, Limit(cfg, s), p, status, time);
    SeepLeavesFit(cfg, status, time, AfterTrim(cfg, status, time, clock, q));
  }

  lemma AfterPromoteBlocked(cfg: Settings, status: Status, time: int, clock: nat -> int, q: Queues)
    requires Once(Id, q)
    ensures var p := AfterPromote(cfg, status, time, clock, q);
            |p.displayed| < LimitOf(cfg, status, time, clock, q) ==> AllBlocked(p.waiting, status)
  {
    var s := AfterSweep(cfg, status, time, clock, q);
    SweepThins(cfg, status, time, clock, q, 0);
    OnceShrinks(Id, q, s);
    PromoteLeavesBlocked(cfg, status, time, Limit(cfg, s), s, 0);
  }

  /** Work conservation: besides, the screen holds no more than the limit, and a place stays
      free only when nothing that waits may be shown. */
  lemma UpdateConservesWork(cfg: Settings, status: Status, time: int, clock: nat -> int, q: Queues)
    requires Once(Id, q) && forall k :: time <= clock(k)
    ensures var r, limit := Updated(cfg, status, time, clock, q), LimitOf(cfg, status, time, clock, q);
            && AllFit(r.displayed, status, time)
            && |r.displayed| <= limit
            && (|r.displayed| < limit ==> AllBlocked(r.waiting, status))
  {
    var p := AfterPromote(cfg, status, time, clock, q);
    var t, limit := AfterTrim(cfg, status, time, clock, q), LimitOf(cfg, status, time, clock, q);
    OnceIsOnScreen(q);
    UpdateLeavesFit(cfg, status, time, clock, q);
    AfterPromoteBlocked(cfg, status, time, clock, q);
    UpdateLengths(cfg, status, time, clock, q);
    TrimEnds(cfg, limit, p);
    if |t.displayed| < limit { TrimIsIdle(cfg, limit, p); }
  }

  // ---------- the whole selection ----------

  /** Nothing in the live queues is blocked by pause or fullscreen. */
  predicate Unblocked(s: seq<Note>, status: Status) {
    forall n | n in s :: IsReady(n, status, false)
  }

  lemma {:induction false} SortedIsFixed(cfg: Settings, base: int, s: seq<Note>)
    requires AllInWindow(cfg, base, s) && Sorted(cfg, s)
    ensures StableSort(cfg, s) == s
  {
    if s != [] {
      SortedIsFixed(cfg, base, s[1..]);
      if |s| > 1 {
        assert s[0] in s && s[1] in s;
        CmpIsRankOrder(cfg, base, s[1], s[0]);
      }
    }
  }

  /** Displayed is the beginning of the sorted list of everything that survived: with
      nothing held back, an update is "sort the survivors and take the first limit". */
  lemma UpdateTakesTheFirst(cfg: Settings, base: int, status: Status, time: int, clock: nat -> int, q: Queues)
    requires Once(Id, q) && Comparable(cfg, base, q) && Sorted(cfg, q.displayed) && Sorted(cfg, q.waiting)
    requires cfg.sort != SortType.ById && forall k :: time <= clock(k)
    requires Unblocked(Updated(cfg, status, time, clock, q).waiting, status)
    ensures var r, limit := Updated(cfg, status, time, clock, q), LimitOf(cfg, status, time, clock, q);
            var survivors := r.displayed + r.waiting;
            && |r.displayed| == (if |survivors| <= limit then |survivors| else limit)
            && r.displayed == StableSort(cfg, survivors)[..|r.displayed|]
            && Sorted(cfg, survivors)
  {
    var r, limit := Updated(cfg, status, time, clock, q), LimitOf(cfg, status, time, clock, q);
    var survivors := r.displayed + r.waiting;
    UpdateConservesWork(cfg, status, time, clock, q);
    UpdateKeepsSorted(cfg, base, status, time, clock, q);
    assert r.waiting != [] ==> r.waiting[0] in r.waiting;
    if |r.displayed| == limit {
      FullScreenShowsTheBest(cfg, base, status, time, clock, q);
    }
    forall i, j | 0 <= i < j < |survivors| ensures Rank(cfg, survivors[i]) <= Rank(cfg, survivors[j]) {
      if i < |r.displayed| <= j {
        assert survivors[i] in r.displayed && survivors[j] in r.waiting;
      }
    }
    SortedIsFixed(cfg, base, survivors);
  }

  // ---------- survivors come from the queues ----------

  /** `n` is a live notification of `q`, apart from the start of its display time. */
  ghost predicate CameFrom(q: Queues, n: Note) {
    exists m :: (m in q.displayed || m in q.waiting) && n == m.(start := n.start)
  }

  ghost predicate OnlyRestarts(q: Queues, r: Queues) {
    (forall n | n in r.displayed :: CameFrom(q, n)) && (forall n | n in r.waiting :: CameFrom(q, n))
  }

  lemma OnlyRestartsTransitive(q: Queues, r: Queues, s: Queues)
    requires OnlyRestarts(q, r) && OnlyRestarts(r, s)
    ensures OnlyRestarts(q, s)
  {
    forall n | n in s.displayed || n in s.waiting ensures CameFrom(q, n) {
      assert CameFrom(r, n);
      var m :| (m in r.displayed || m in r.waiting) && n == m.(start := n.start);
      assert CameFrom(q, m);
      var l :| (l in q.displayed || l in q.waiting) && m == l.(start := m.start);
      assert n == l.(start := n.start);
    }
  }

  lemma SubsetRestarts(q: Queues, r: Queues)
    requires forall n | n in r.displayed || n in r.waiting :: n in q.displayed || n in q.waiting
    ensures OnlyRestarts(q, r)
  {
    forall n | n in r.displayed || n in r.waiting ensures CameFrom(q, n) {
      assert n == n.(start := n.start);
    }
  }

  lemma CloseRestarts(cfg: Settings, q: Queues, id: int, reason: int)
    ensures OnlyRestarts(q, CloseId(cfg, q, id, reason)) && OnlyRestarts(q, RemoveId(cfg, q, id, reason))
  {
    CloseIdQueues(cfg, q, id, reason);
    SubsetRestarts(q, CloseId(cfg, q, id, reason));
    SubsetRestarts(q, RemoveId(cfg, q, id, reason));
  }

  /** Closing at `i` makes other changes to that notification irrelevant. */
  lemma CloseChangedRestarts(cfg: Settings, q: Queues, c: Queues, i: nat, n: Note, reason: int)
    requires OnceOnScreen(q) && i < |q.displayed| && c == SetDisplayed(q, i, n) && SameIdentity(q.displayed[i], n)
    ensures OnlyRestarts(q, RemoveId(cfg, c, n.id, reason))
    ensures OnlyRestarts(q, CloseId(cfg, c, n.id, reason))
  {
    SetDisplayedShrinks(q, i, n);
    OnceOnScreenShrinks(q, c);
    UniqueOnScreen(c, i);
    CloseIdQueues(cfg, c, n.id, reason);
    assert RemoveAt(c.displayed, i) == RemoveAt(q.displayed, i);
    assert forall m | m in RemoveAt(q.displayed, i) :: m in q.displayed;
    CloseIdMembers(cfg, c, n.id, reason);
    SubsetRestarts(q, CloseId(cfg, c, n.id, reason));
    SubsetRestarts(q, RemoveId(cfg, c, n.id, reason));
  }

  lemma SweepStepRestarts(cfg: Settings, status: Status, time: int, clock: nat -> int, q: Queues, i: nat)
    requires OnceOnScreen(q) && i < |q.displayed|
    ensures OnlyRestarts(q, SweepStep(cfg, status, time, clock, q, i).0)
  {
    var n := q.displayed[i];
    if n.locked {
      SubsetRestarts(q, q);
    } else if n.closeMark != 0 {
      CloseChangedRestarts(cfg, q, SetDisplayed(q, i, n.(closeMark := 0)), i, n.(closeMark := 0), n.closeMark);
    } else if n.removeMark != 0 {
      CloseChangedRestarts(cfg, q, SetDisplayed(q, i, n.(removeMark := 0)), i, n.(removeMark := 0), n.removeMark);
    } else {
      SweepUnmarkedRestarts(cfg, status, time, clock, q, i);
    }
  }

  lemma SweepUnmarkedRestarts(cfg: Settings, status: Status, time: int, clock: nat -> int, q: Queues, i: nat)
    requires i < |q.displayed|
    ensures OnlyRestarts(q, SweepUnmarked(cfg, status, time, clock, q, i).0)
  {
    var n := q.displayed[i];
    var t := Touched(n, status, clock(n.key));
    if IsFinished(n, status, time) {
      CloseRestarts(cfg, q, n.id, REASON_TIME);
    } else {
      TouchedRestarts(cfg, q, i, t);
    }
  }

  lemma TouchedRestarts(cfg: Settings, q: Queues, i: nat, t: Note)
    requires i < |q.displayed| && t == q.displayed[i].(start := t.start)
    ensures var q' := SetDisplayed(q, i, t);
            && OnlyRestarts(q, q')
            && OnlyRestarts(q, CloseId(cfg, q', t.id, REASON_UNDEF))
            && OnlyRestarts(q, ToWaiting(cfg, q', i))
  {
    var q' := SetDisplayed(q, i, t);
    TouchRestarts(q, i, t);
    CloseRestarts(cfg, q', t.id, REASON_UNDEF);
    OnlyRestartsTransitive(q, q', CloseId(cfg, q', t.id, REASON_UNDEF));
    InsertMembers(cfg, q'.waiting, t);
    SubsetRestarts(q', ToWaiting(cfg, q', i));
    OnlyRestartsTransitive(q, q', ToWaiting(cfg, q', i));
  }

  lemma TouchRestarts(q: Queues, i: nat, t: Note)
    requires i < |q.displayed| && t == q.displayed[i].(start := t.start)
    ensures OnlyRestarts(q, SetDisplayed(q, i, t))
  {
    forall n | n in SetDisplayed(q, i, t).displayed || n in q.waiting ensures CameFrom(q, n) {
      assert q.displayed[i] in q.displayed;
      assert n == t || n == n.(start := n.start);
    }
  }

  lemma {:induction false} SweepRestarts(cfg: Settings, status: Status, time: int, clock: nat -> int, q: Queues, i: nat)
    requires OnceOnScreen(q) && i <= |q.displayed|
    ensures OnlyRestarts(q, Sweep(cfg, status, time, clock, q, i))
    decreases |q.displayed| - i
  {
    if i == |q.displayed| {
      SubsetRestarts(q, q);
    } else {
      var s := SweepStep(cfg, status, time, clock, q, i);
      SweepStepRestarts(cfg, status, time, clock, q, i);
      SweepStepThins(cfg, status, time, clock, q, i);
      OnceOnScreenShrinks(q, s.0);
      SweepRestarts(cfg, status, time, clock, s.0, s.1);
      OnlyRestartsTransitive(q, s.0, Sweep(cfg, status, time, clock, s.0, s.1));
    }
  }

  lemma ShowRestarts(q: Queues, r: Queues, w: Note, time: int)
    requires w in q.waiting
    requires forall n | n in r.displayed || n in r.waiting ::
               n in q.displayed || n in q.waiting || n == w.(start := time)
    ensures OnlyRestarts(q, r)
  {
    forall n | n in r.displayed || n in r.waiting ensures CameFrom(q, n) {
      assert n == w.(start := time) || n == n.(start := n.start);
    }
  }

  lemma CloseStartedRestarts(cfg: Settings, q: Queues, i: nat, time: int, reason: int)
    requires i < |q.waiting|
    ensures var n := q.waiting[i];
            OnlyRestarts(q, CloseId(cfg, SetWaiting(q, i, n.(start := time)), n.id, reason))
  {
    var n := q.waiting[i];
    var q' := SetWaiting(q, i, n.(start := time));
    CloseIdMembers(cfg, q', n.id, reason);
    assert forall m | m in q'.waiting :: m in q.waiting || m == n.(start := time);
    ShowRestarts(q, CloseId(cfg, q', n.id, reason), n, time);
  }

  lemma PromoteStepRestarts(cfg: Settings, status: Status, time: int, q: Queues, i: nat)
    requires i < |q.waiting|
    ensures OnlyRestarts(q, PromoteStep(cfg, status, time, q, i).0)
  {
    var n := q.waiting[i];
    if Suppressed(n, status) {
      CloseStartedRestarts(cfg, q, i, time, REASON_UNDEF);
    } else if !IsReady(n, status, false) {
      SubsetRestarts(q, q);
    } else if n.skipDisplay && !n.redisplayed {
      CloseStartedRestarts(cfg, q, i, time, REASON_USER);
    } else {
      InsertMembers(cfg, q.displayed, n.(start := time));
      ShowRestarts(q, ToDisplayed(cfg, q, i, time), n, time);
    }
  }

  lemma {:induction false} PromoteRestarts(cfg: Settings, status: Status, time: int, limit: int, q: Queues, i: nat)
    requires i <= |q.waiting|
    ensures OnlyRestarts(q, Promote(cfg, status, time, limit, q, i))
    decreases |q.waiting| - i
  {
    if i == |q.waiting| || |q.displayed| >= limit {
      SubsetRestarts(q, q);
    } else {
      var s := PromoteStep(cfg, status, time, q, i);
      PromoteStepRestarts(cfg, status, time, q, i);
      PromoteRestarts(cfg, status, time, limit, s.0, s.1);
      OnlyRestartsTransitive(q, s.0, Promote(cfg, status, time, limit, s.0, s.1));
    }
  }

  lemma {:induction false} TrimRestarts(cfg: Settings, limit: int, q: Queues)
    requires 0 <= limit
    ensures OnlyRestarts(q, Trim(cfg, limit, q))
    decreases |q.displayed|
  {
    if |q.displayed| <= limit {
      SubsetRestarts(q, q);
    } else {
      var r := ToWaiting(cfg, q, |q.displayed| - 1);
      InsertMembers(cfg, q.waiting, q.displayed[|q.displayed| - 1]);
      SubsetRestarts(q, r);
      TrimRestarts(cfg, limit, r);
      OnlyRestartsTransitive(q, r, Trim(cfg, limit, r));
    }
  }

  lemma {:induction false} SeepRestarts(cfg: Settings, status: Status, time: int, q: Queues)
    ensures OnlyRestarts(q, Seep(cfg, status, time, q))
    decreases UrgencyInversions(cfg, q.displayed, q.waiting), AllDescents(cfg, q.displayed, q.waiting),
              Depth(cfg, q.displayed, q.waiting)
  {
    if !Seeps(cfg, status, q) {
      SubsetRestarts(q, q);
    } else {
      var r, last := Swap(cfg, time, q), |q.displayed| - 1;
      SwapDecreases(cfg, status, time, q);
      InsertMembers(cfg, q.displayed[..last], q.waiting[0].(start := time));
      InsertMembers(cfg, q.waiting[1..], q.displayed[last]);
      ShowRestarts(q, r, q.waiting[0], time);
      SeepRestarts(cfg, status, time, r);
      OnlyRestartsTransitive(q, r, Seep(cfg, status, time, r));
    }
  }

  /** Whatever is displayed or waits after an update was displayed or waited before it, and
      at most the start of its display time changed. */
  lemma UpdateOnlyRestarts(cfg: Settings, status: Status, time: int, clock: nat -> int, q: Queues)
    requires OnceOnScreen(q)
    ensures OnlyRestarts(q, Updated(cfg, status, time, clock, q))
  {
    var s, p := AfterSweep(cfg, status, time, clock, q), AfterPromote(cfg, status, time, clock, q);
    var t, limit := AfterTrim(cfg, status, time, clock, q), LimitOf(cfg, status, time, clock, q);
    SweepRestarts(cfg, status, time, clock, q, 0);
    PromoteRestarts(cfg, status, time, limit, s, 0);
    TrimRestarts(cfg, limit, p);
    SeepRestarts(cfg, status, time, t);
    OnlyRestartsTransitive(q, s, p);
    OnlyRestartsTransitive(q, p, t);
    OnlyRestartsTransitive(q, t, Seep(cfg, status, time, t));
  }

  // ---------- rows on screen (src/draw.c) ----------

  /** Rows that `create_layouts` builds, with the "(N more)" row. */
  function RowCount(cfg: Settings, q: Queues): nat {
    |q.displayed| + (if |q.waiting| > 0 && cfg.indicateHidden && cfg.notificationLimit != 1 then 1 else 0)
  }

  /** After an update the window never has more rows than notification_limit, whatever is
      hidden, blocked or locked. */
  lemma RowsWithinLimit(cfg: Settings, status: Status, time: int, clock: nat -> int, q: Queues)
    requires cfg.notificationLimit > 0
    ensures RowCount(cfg, Updated(cfg, status, time, clock, q)) <= cfg.notificationLimit
  {
    var s := AfterSweep(cfg, status, time, clock, q);
    UpdateLengths(cfg, status, time, clock, q);
    PromoteFits(cfg, status, time, Limit(cfg, s), s, 0);
  }

  // ---------- stability ----------

  /** Nothing about a displayed notification asks for a second look. */
  predicate Settled(n: Note) {
    n.locked || (n.closeMark == 0 && n.removeMark == 0 && !(n.skipDisplay && !n.redisplayed) && n.timeout >= 0)
  }

  function LookAt(n: Note, status: Status, clock: nat -> int): (r: Note)
    ensures r == n.(start := r.start)
  {
    if n.locked then n else Touched(n, status, clock(n.key))
  }

  /** The display times of paused notifications restart; nothing else changes. */
  function Look(s: seq<Note>, status: Status, clock: nat -> int): (r: seq<Note>)
    ensures |r| == |s|
    ensures forall i | 0 <= i < |s| :: r[i] == LookAt(s[i], status, clock)
  {
    seq(|s|, i requires 0 <= i < |s| => LookAt(s[i], status, clock))
  }

  lemma LookStep(s: seq<Note>, status: Status, clock: nat -> int, i: nat)
    requires i < |s|
    ensures var s' := s[i := LookAt(s[i], status, clock)];
            s'[..i + 1] + Look(s'[i + 1..], status, clock) == s[..i] + Look(s[i..], status, clock)
  {
    assert s[i := LookAt(s[i], status, clock)][i + 1..] == s[i + 1..];
  }

  lemma SweepStepOnlyLooks(cfg: Settings, status: Status, time: int, clock: nat -> int, q: Queues, i: nat)
    requires i < |q.displayed| && Fit(q.displayed[i], status, time) && Settled(q.displayed[i])
    ensures SweepStep(cfg, status, time, clock, q, i)
            == (q.(displayed := q.displayed[i := LookAt(q.displayed[i], status, clock)]), i + 1)
  {
    var t := LookAt(q.displayed[i], status, clock);
    assert q.displayed[i].locked ==> q.displayed[i := t] == q.displayed;
  }

  lemma {:induction false} SweepOnlyLooks(cfg: Settings, status: Status, time: int, clock: nat -> int, q: Queues,
                                          i: nat)
    requires i <= |q.displayed|
    requires forall j | i <= j < |q.displayed| :: Fit(q.displayed[j], status, time) && Settled(q.displayed[j])
    ensures Sweep(cfg, status, time, clock, q, i)
            == q.(displayed := q.displayed[..i] + Look(q.displayed[i..], status, clock))
    decreases |q.displayed| - i
  {
    if i == |q.displayed| {
      assert q.displayed == q.displayed[..i] + Look(q.displayed[i..], status, clock);
    } else {
      var s := q.(displayed := q.displayed[i := LookAt(q.displayed[i], status, clock)]);
      SweepStepOnlyLooks(cfg, status, time, clock, q, i);
      SweepOnlyLooks(cfg, status, time, clock, s, i + 1);
      LookStep(q.displayed, status, clock, i);
    }
  }

  lemma {:induction false} PromoteIsIdle(cfg: Settings, status: Status, time: int, limit: int, q: Queues, i: nat)
    requires i <= |q.waiting|
    requires |q.displayed| >= limit || AllBlocked(q.waiting, status)
    ensures Promote(cfg, status, time, limit, q, i) == q
    decreases |q.waiting| - i
  {
    if i < |q.waiting| && |q.displayed| < limit {
      assert q.waiting[i] in q.waiting;
      PromoteIsIdle(cfg, status, time, limit, q, i + 1);
    }
  }

  /** No loop of `queues_update` has anything to do. */
  ghost predicate AtRest(cfg: Settings, status: Status, time: int, q: Queues) {
    && AllFit(q.displayed, status, time)
    && (forall n | n in q.displayed :: Settled(n))
    && |q.displayed| <= Limit(cfg, q)
    && (|q.displayed| < Limit(cfg, q) ==> AllBlocked(q.waiting, status))
    && (cfg.sort != SortType.ById && |q.displayed| == Limit(cfg, q) ==> !Seeps(cfg, status, q))
  }

  lemma LookLooksSame(cfg: Settings, status: Status, clock: nat -> int, q: Queues)
    ensures var l := q.(displayed := Look(q.displayed, status, clock));
            Limit(cfg, l) == Limit(cfg, q) && (Seeps(cfg, status, l) <==> Seeps(cfg, status, q))
  {
  }

  lemma AtRestOnlyLooks(cfg: Settings, status: Status, time: int, clock: nat -> int, q: Queues)
    requires AtRest(cfg, status, time, q)
    ensures Updated(cfg, status, time, clock, q) == q.(displayed := Look(q.displayed, status, clock))
  {
    var l, limit := q.(displayed := Look(q.displayed, status, clock)), Limit(cfg, q);
    SweepOnlyLooks(cfg, status, time, clock, q, 0);
    assert q.displayed[..0] + Look(q.displayed[0..], status, clock) == l.displayed by {
      assert q.displayed[0..] == q.displayed;
    }
    assert AfterSweep(cfg, status, time, clock, q) == l;
    LookLooksSame(cfg, status, clock, q);
    PromoteIsIdle(cfg, status, time, limit, l, 0);
    TrimIsIdle(cfg, limit, l);
    assert AfterTrim(cfg, status, time, clock, q) == l;
  }

  /** Stability: if the promotion pass closed nothing and what is displayed is settled, a
      second update with equal status and time moves, closes and signals nothing. */
  lemma SecondUpdateMovesNothing(cfg: Settings, status: Status, time: int, clock: nat -> int, clock': nat -> int,
                                 q: Queues)
    requires Once(Id, q) && forall k :: time <= clock(k)
    requires var s, p := AfterSweep(cfg, status, time, clock, q), AfterPromote(cfg, status, time, clock, q);
             |p.displayed| + |p.waiting| == |s.displayed| + |s.waiting|
    requires forall n | n in Updated(cfg, status, time, clock, q).displayed :: Settled(n)
    ensures var r := Updated(cfg, status, time, clock, q);
            Updated(cfg, status, time, clock', r) == r.(displayed := Look(r.displayed, status, clock'))
  {
    var r := Updated(cfg, status, time, clock, q);
    SeepEnds(cfg, status, time, AfterTrim(cfg, status, time, clock, q));
    UpdateConservesWork(cfg, status, time, clock, q);
    UpdateLengths(cfg, status, time, clock, q);
    assert Limit(cfg, r) == LimitOf(cfg, status, time, clock, q);
    AtRestOnlyLooks(cfg, status, time, clock', r);
  }
}
