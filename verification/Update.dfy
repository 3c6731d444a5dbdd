/** `queues_update` as a whole, and the order of the two queues across it. */
module Update {
  import opened Notifications
  import opened SortedQueue
  import opened Seeping
  import opened QueueSpec

  /** The queues the comparator works on: inside one window and, if `sorted`, in order. */
  ghost predicate Ordered(cfg: Settings, base: int, sorted: bool, q: Queues) {
    Comparable(cfg, base, q) && (sorted ==> Sorted(cfg, q.displayed) && Sorted(cfg, q.waiting))
  }

  lemma RemoveKeepsOrder(cfg: Settings, base: int, s: seq<Note>, i: nat)
    requires AllInWindow(cfg, base, s) && i < |s|
    ensures AllInWindow(cfg, base, RemoveAt(s, i))
    ensures Sorted(cfg, s) ==> Sorted(cfg, RemoveAt(s, i))
  {
  }

  lemma InsertKeepsOrder(cfg: Settings, base: int, s: seq<Note>, n: Note)
    requires AllInWindow(cfg, base, s) && InWindow(cfg, base, n)
    ensures AllInWindow(cfg, base, InsertSorted(cfg, s, n))
    ensures Sorted(cfg, s) ==> Sorted(cfg, InsertSorted(cfg, s, n))
  {
    InsertMembers(cfg, s, n);
    if Sorted(cfg, s) { InsertKeepsSorted(cfg, base, s, n); }
  }

  lemma RetireQueues(cfg: Settings, q: Queues, n: Note, reason: int)
    ensures var r := Retire(cfg, q, n, reason); r.displayed == q.displayed && r.waiting == q.waiting
  {
  }

  lemma CloseIdQueues(cfg: Settings, q: Queues, id: int, reason: int)
    ensures var r, d := CloseId(cfg, q, id, reason), IndexOfId(q.displayed, id);
            r.displayed == if d < |q.displayed| then RemoveAt(q.displayed, d) else q.displayed
    ensures var r, w := CloseId(cfg, q, id, reason), IndexOfId(q.waiting, id);
            r.waiting == if w < |q.waiting| then RemoveAt(q.waiting, w) else q.waiting
  {
    var d, w := IndexOfId(q.displayed, id), IndexOfId(q.waiting, id);
    var q' := q.(displayed := if d < |q.displayed| then RemoveAt(q.displayed, d) else q.displayed,
                 waiting := if w < |q.waiting| then RemoveAt(q.waiting, w) else q.waiting);
    if w < |q.waiting| {
      RetireQueues(cfg, if d < |q.displayed|
                        then Drop(q, q.displayed[d], Shadowed).(displayed := q'.displayed, waiting := q'.waiting)
                        else q',
                   q.waiting[w], reason);
    } else if d < |q.displayed| {
      RetireQueues(cfg, q', q.displayed[d], reason);
    }
  }

  lemma CloseIdMembers(cfg: Settings, q: Queues, id: int, reason: int)
    ensures forall n | n in CloseId(cfg, q, id, reason).displayed :: n in q.displayed
    ensures forall n | n in CloseId(cfg, q, id, reason).waiting :: n in q.waiting
  {
    CloseIdQueues(cfg, q, id, reason);
  }

  lemma CloseIdOrdered(cfg: Settings, base: int, sorted: bool, q: Queues, id: int, reason: int)
    requires Ordered(cfg, base, sorted, q)
    ensures Ordered(cfg, base, sorted, CloseId(cfg, q, id, reason))
    ensures Ordered(cfg, base, sorted, RemoveId(cfg, q, id, reason))
  {
    var c, r := CloseId(cfg, q, id, reason), RemoveId(cfg, q, id, reason);
    CloseIdQueues(cfg, q, id, reason);
    assert r.displayed == c.displayed && r.waiting == c.waiting;
    QueuesLeftOrdered(cfg, base, sorted, q, c, IndexOfId(q.displayed, id), IndexOfId(q.waiting, id));
    QueuesLeftOrdered(cfg, base, sorted, q, r, IndexOfId(q.displayed, id), IndexOfId(q.waiting, id));
  }

  lemma QueuesLeftOrdered(cfg: Settings, base: int, sorted: bool, q: Queues, r: Queues, d: nat, w: nat)
    requires Ordered(cfg, base, sorted, q) && d <= |q.displayed| && w <= |q.waiting|
    requires r.displayed == if d < |q.displayed| then RemoveAt(q.displayed, d) else q.displayed
    requires r.waiting == if w < |q.waiting| then RemoveAt(q.waiting, w) else q.waiting
    ensures Ordered(cfg, base, sorted, r)
  {
    if d < |q.displayed| { RemoveKeepsOrder(cfg, base, q.displayed, d); }
    if w < |q.waiting| { RemoveKeepsOrder(cfg, base, q.waiting, w); }
  }

  lemma ToWaitingOrdered(cfg: Settings, base: int, sorted: bool, q: Queues, i: nat)
    requires Ordered(cfg, base, sorted, q) && i < |q.displayed|
    ensures Ordered(cfg, base, sorted, ToWaiting(cfg, q, i))
  {
    assert q.displayed[i] in q.displayed;
    RemoveKeepsOrder(cfg, base, q.displayed, i);
    InsertKeepsOrder(cfg, base, q.waiting, q.displayed[i]);
  }

  lemma ToDisplayedOrdered(cfg: Settings, base: int, sorted: bool, q: Queues, i: nat, time: int)
    requires Ordered(cfg, base, sorted, q) && i < |q.waiting|
    ensures Ordered(cfg, base, sorted, ToDisplayed(cfg, q, i, time))
  {
    assert q.waiting[i] in q.waiting;
    RemoveKeepsOrder(cfg, base, q.waiting, i);
    InsertKeepsOrder(cfg, base, q.displayed, q.waiting[i].(start := time));
  }

  lemma SetKeepsOrder(cfg: Settings, base: int, s: seq<Note>, i: nat, n: Note)
    requires AllInWindow(cfg, base, s) && i < |s| && SameSortKey(s[i], n)
    ensures AllInWindow(cfg, base, s[i := n])
    ensures Sorted(cfg, s) ==> Sorted(cfg, s[i := n])
  {
    assert s[i] in s;
  }

  lemma SetDisplayedOrdered(cfg: Settings, base: int, sorted: bool, q: Queues, i: nat, n: Note)
    requires Ordered(cfg, base, sorted, q) && i < |q.displayed| && SameSortKey(q.displayed[i], n)
    ensures Ordered(cfg, base, sorted, SetDisplayed(q, i, n))
  {
    SetKeepsOrder(cfg, base, q.displayed, i, n);
  }

  lemma TouchedOrdered(cfg: Settings, base: int, sorted: bool, status: Status, q: Queues, i: nat, t: Note)
    requires Ordered(cfg, base, sorted, q) && i < |q.displayed| && SameSortKey(q.displayed[i], t)
    ensures var q' := SetDisplayed(q, i, t);
            && Ordered(cfg, base, sorted, q')
            && Ordered(cfg, base, sorted, CloseId(cfg, q', t.id, REASON_UNDEF))
            && Ordered(cfg, base, sorted, ToWaiting(cfg, q', i))
  {
    var q' := SetDisplayed(q, i, t);
    SetDisplayedOrdered(cfg, base, sorted, q, i, t);
    CloseIdOrdered(cfg, base, sorted, q', t.id, REASON_UNDEF);
    ToWaitingOrdered(cfg, base, sorted, q', i);
  }

  lemma SweepStepOrdered(cfg: Settings, base: int, sorted: bool, status: Status, time: int, clock: nat -> int,
                         q: Queues, i: nat)
    requires Ordered(cfg, base, sorted, q) && i < |q.displayed|
    ensures Ordered(cfg, base, sorted, SweepStep(cfg, status, time, clock, q, i).0)
  {
    var n := q.displayed[i];
    if n.locked {
    } else if n.closeMark != 0 {
      SetDisplayedOrdered(cfg, base, sorted, q, i, n.(closeMark := 0));
      CloseIdOrdered(cfg, base, sorted, SetDisplayed(q, i, n.(closeMark := 0)), n.id, n.closeMark);
    } else if n.removeMark != 0 {
      SetDisplayedOrdered(cfg, base, sorted, q, i, n.(removeMark := 0));
      CloseIdOrdered(cfg, base, sorted, SetDisplayed(q, i, n.(removeMark := 0)), n.id, n.removeMark);
    } else {
      SweepUnmarkedOrdered(cfg, base, sorted, status, time, clock, q, i);
    }
  }

  lemma SweepUnmarkedOrdered(cfg: Settings, base: int, sorted: bool, status: Status, time: int, clock: nat -> int,
                             q: Queues, i: nat)
    requires Ordered(cfg, base, sorted, q) && i < |q.displayed|
    ensures Ordered(cfg, base, sorted, SweepUnmarked(cfg, status, time, clock, q, i).0)
  {
    var n := q.displayed[i];
    var t := Touched(n, status, clock(n.key));
    if IsFinished(n, status, time) {
      CloseIdOrdered(cfg, base, sorted, q, n.id, REASON_TIME);
    } else {
      TouchedOrdered(cfg, base, sorted, status, q, i, t);
    }
  }

  lemma {:induction false} SweepOrdered(cfg: Settings, base: int, sorted: bool, status: Status, time: int,
                                        clock: nat -> int, q: Queues, i: nat)
    requires Ordered(cfg, base, sorted, q) && i <= |q.displayed|
    ensures Ordered(cfg, base, sorted, Sweep(cfg, status, time, clock, q, i))
    decreases |q.displayed| - i
  {
    if i < |q.displayed| {
      var s := SweepStep(cfg, status, time, clock, q, i);
      SweepStepOrdered(cfg, base, sorted, status, time, clock, q, i);
      SweepOrdered(cfg, base, sorted, status, time, clock, s.0, s.1);
    }
  }

  lemma PromoteStepOrdered(cfg: Settings, base: int, sorted: bool, status: Status, time: int, q: Queues, i: nat)
    requires Ordered(cfg, base, sorted, q) && i < |q.waiting|
    ensures Ordered(cfg, base, sorted, PromoteStep(cfg, status, time, q, i).0)
  {
    var n := q.waiting[i];
    var q' := SetWaiting(q, i, n.(start := time));
    SetKeepsOrder(cfg, base, q.waiting, i, n.(start := time));
    CloseIdOrdered(cfg, base, sorted, q', n.id, REASON_UNDEF);
    CloseIdOrdered(cfg, base, sorted, q', n.id, REASON_USER);
    ToDisplayedOrdered(cfg, base, sorted, q, i, time);
  }

  lemma {:induction false} PromoteOrdered(cfg: Settings, base: int, sorted: bool, status: Status, time: int,
                                          limit: int, q: Queues, i: nat)
    requires Ordered(cfg, base, sorted, q) && i <= |q.waiting|
    ensures Ordered(cfg, base, sorted, Promote(cfg, status, time, limit, q, i))
    decreases |q.waiting| - i
  {
    if i < |q.waiting| && |q.displayed| < limit {
      var s := PromoteStep(cfg, status, time, q, i);
      PromoteStepOrdered(cfg, base, sorted, status, time, q, i);
      PromoteOrdered(cfg, base, sorted, status, time, limit, s.0, s.1);
    }
  }

  lemma {:induction false} TrimOrdered(cfg: Settings, base: int, sorted: bool, limit: int, q: Queues)
    requires Ordered(cfg, base, sorted, q) && 0 <= limit
    ensures Ordered(cfg, base, sorted, Trim(cfg, limit, q))
    decreases |q.displayed|
  {
    if |q.displayed| > limit {
      ToWaitingOrdered(cfg, base, sorted, q, |q.displayed| - 1);
      TrimOrdered(cfg, base, sorted, limit, ToWaiting(cfg, q, |q.displayed| - 1));
    }
  }

  lemma ReinsertKeepsOrder(cfg: Settings, base: int, s: seq<Note>, i: nat, n: Note)
    requires AllInWindow(cfg, base, s) && i < |s| && InWindow(cfg, base, n)
    ensures AllInWindow(cfg, base, InsertSorted(cfg, RemoveAt(s, i), n))
    ensures Sorted(cfg, s) ==> Sorted(cfg, InsertSorted(cfg, RemoveAt(s, i), n))
  {
    RemoveKeepsOrder(cfg, base, s, i);
    InsertKeepsOrder(cfg, base, RemoveAt(s, i), n);
  }

  lemma SwapOrdered(cfg: Settings, base: int, sorted: bool, time: int, q: Queues)
    requires Ordered(cfg, base, sorted, q) && q.waiting != [] && q.displayed != []
    ensures Ordered(cfg, base, sorted, Swap(cfg, time, q))
  {
    var last := |q.displayed| - 1;
    assert q.displayed[last] in q.displayed && q.waiting[0] in q.waiting;
    assert RemoveAt(q.displayed, last) == q.displayed[..last] && RemoveAt(q.waiting, 0) == q.waiting[1..];
    ReinsertKeepsOrder(cfg, base, q.displayed, last, q.waiting[0].(start := time));
    ReinsertKeepsOrder(cfg, base, q.waiting, 0, q.displayed[last]);
  }

  lemma {:induction false} SeepOrdered(cfg: Settings, base: int, sorted: bool, status: Status, time: int, q: Queues)
    requires Ordered(cfg, base, sorted, q)
    ensures Ordered(cfg, base, sorted, Seep(cfg, status, time, q))
    decreases UrgencyInversions(cfg, q.displayed, q.waiting), AllDescents(cfg, q.displayed, q.waiting),
              Depth(cfg, q.displayed, q.waiting)
  {
    if Seeps(cfg, status, q) {
      SwapDecreases(cfg, status, time, q);
      SwapOrdered(cfg, base, sorted, time, q);
      SeepOrdered(cfg, base, sorted, status, time, Swap(cfg, time, q));
    }
  }

  // ---------- the four loops ----------

  function AfterSweep(cfg: Settings, status: Status, time: int, clock: nat -> int, q: Queues): Queues {
    Sweep(cfg, status, time, clock, q, 0)
  }

  function AfterPromote(cfg: Settings, status: Status, time: int, clock: nat -> int, q: Queues): Queues {
    var s := AfterSweep(cfg, status, time, clock, q);
    Promote(cfg, status, time, Limit(cfg, s), s, 0)
  }

  /** `cur_displayed_limit` of this update. */
  function LimitOf(cfg: Settings, status: Status, time: int, clock: nat -> int, q: Queues): int {
    Limit(cfg, AfterSweep(cfg, status, time, clock, q))
  }

  function AfterTrim(cfg: Settings, status: Status, time: int, clock: nat -> int, q: Queues): Queues {
    Trim(cfg, LimitOf(cfg, status, time, clock, q), AfterPromote(cfg, status, time, clock, q))
  }

  lemma TrimmedOrdered(cfg: Settings, base: int, sorted: bool, status: Status, time: int, clock: nat -> int, q: Queues)
    requires Ordered(cfg, base, sorted, q)
    ensures Ordered(cfg, base, sorted, AfterTrim(cfg, status, time, clock, q))
  {
    var s, p := AfterSweep(cfg, status, time, clock, q), AfterPromote(cfg, status, time, clock, q);
    SweepOrdered(cfg, base, sorted, status, time, clock, q, 0);
    PromoteOrdered(cfg, base, sorted, status, time, Limit(cfg, s), s, 0);
    TrimOrdered(cfg, base, sorted, Limit(cfg, s), p);
  }

  /** `queues_update` */
  function Updated(cfg: Settings, status: Status, time: int, clock: nat -> int, q: Queues): Queues {
    var t := AfterTrim(cfg, status, time, clock, q);
    if cfg.sort != SortType.ById && |t.displayed| == LimitOf(cfg, status, time, clock, q)
    then Seep(cfg, status, time, t) else t
  }

  /** An update leaves both queues in order if it finds them in order. */
  lemma UpdateKeepsSorted(cfg: Settings, base: int, status: Status, time: int, clock: nat -> int, q: Queues)
    requires Comparable(cfg, base, q) && Sorted(cfg, q.displayed) && Sorted(cfg, q.waiting)
    ensures var r := Updated(cfg, status, time, clock, q);
            Comparable(cfg, base, r) && Sorted(cfg, r.displayed) && Sorted(cfg, r.waiting)
  {
    TrimmedOrdered(cfg, base, true, status, time, clock, q);
    SeepOrdered(cfg, base, true, status, time, AfterTrim(cfg, status, time, clock, q));
  }
}
