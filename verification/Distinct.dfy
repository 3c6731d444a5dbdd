/** Distinct labels among what is displayed or waits, and that no step of an update makes a
    label occur there more often. */
module Distinct {
  import opened Notifications
  import opened SortedQueue
  import opened Seeping
  import opened QueueSpec
  import opened Conservation
  import opened Update

  /** No two notifications on screen share an id. */
  ghost predicate OnceOnScreen(q: Queues) {
    forall x: int :: Count(Id, x, q.displayed) <= 1
  }

  /** From `q` to `r` no label becomes more frequent on screen. */
  ghost predicate ShrinksOnScreen(q: Queues, r: Queues) {
    forall p: Label, x: int :: Count(p, x, r.displayed) <= Count(p, x, q.displayed)
  }

  /** Nor among all that is displayed or waits. */
  ghost predicate Shrinks(q: Queues, r: Queues) {
    forall p: Label, x: int :: Current(p, x, r) <= Current(p, x, q)
  }

  lemma ShrinksTransitive(q: Queues, r: Queues, s: Queues)
    requires Shrinks(q, r) && Shrinks(r, s)
    ensures Shrinks(q, s)
  {
    forall p: Label, x: int ensures Current(p, x, s) <= Current(p, x, q) {
      assert Current(p, x, s) <= Current(p, x, r) <= Current(p, x, q);
    }
  }

  lemma OnceShrinks(p: Label, q: Queues, r: Queues)
    requires Shrinks(q, r) && Once(p, q)
    ensures Once(p, r)
  {
    forall x: int ensures Current(p, x, r) <= 1 {
      assert Current(p, x, r) <= Current(p, x, q) <= 1;
    }
  }

  lemma OnceOnScreenShrinks(q: Queues, r: Queues)
    requires ShrinksOnScreen(q, r) && OnceOnScreen(q)
    ensures OnceOnScreen(r)
  {
    forall x: int ensures Count(Id, x, r.displayed) <= 1 {
      assert Count(Id, x, r.displayed) <= Count(Id, x, q.displayed) <= 1;
    }
  }

  lemma OnceIsOnScreen(q: Queues)
    requires Once(Id, q)
    ensures OnceOnScreen(q)
  {
    forall x: int ensures Count(Id, x, q.displayed) <= 1 {
      assert Current(Id, x, q) <= 1;
    }
  }

  lemma FirstHolder(s: seq<Note>, i: nat)
    requires i < |s| && Count(Id, s[i].id, s) <= 1
    ensures IndexOfId(s, s[i].id) == i
  {
    var d := IndexOfId(s, s[i].id);
    IndexOfIdAtMost(s, s[i].id, i);
    if d < i { CountTwice(Id, s, d, i); }
  }

  lemma UniqueOnScreen(q: Queues, i: nat)
    requires OnceOnScreen(q) && i < |q.displayed|
    ensures IndexOfId(q.displayed, q.displayed[i].id) == i
  {
    FirstHolder(q.displayed, i);
  }

  lemma UniqueIndex(q: Queues, i: nat)
    requires Once(Id, q)
    ensures i < |q.displayed| ==> IndexOfId(q.displayed, q.displayed[i].id) == i
    ensures i < |q.waiting| ==> IndexOfId(q.waiting, q.waiting[i].id) == i
  {
    if i < |q.displayed| {
      assert Current(Id, q.displayed[i].id, q) <= 1;
      FirstHolder(q.displayed, i);
    }
    if i < |q.waiting| {
      assert Current(Id, q.waiting[i].id, q) <= 1;
      FirstHolder(q.waiting, i);
    }
  }

  // ---------- no step adds a label ----------

  lemma RemoveShrinks(p: Label, x: int, s: seq<Note>, i: nat)
    requires i < |s|
    ensures Count(p, x, RemoveAt(s, i)) <= Count(p, x, s)
  {
    CountSplit(p, x, s, i);
  }

  lemma CloseIdShrinks(cfg: Settings, q: Queues, id: int, reason: int)
    ensures Shrinks(q, CloseId(cfg, q, id, reason)) && ShrinksOnScreen(q, CloseId(cfg, q, id, reason))
    ensures Shrinks(q, RemoveId(cfg, q, id, reason)) && ShrinksOnScreen(q, RemoveId(cfg, q, id, reason))
  {
    var d, w := IndexOfId(q.displayed, id), IndexOfId(q.waiting, id);
    var r := CloseId(cfg, q, id, reason);
    CloseIdQueues(cfg, q, id, reason);
    forall p: Label, x: int
      ensures Count(p, x, r.displayed) <= Count(p, x, q.displayed) && Count(p, x, r.waiting) <= Count(p, x, q.waiting) {
      if d < |q.displayed| { RemoveShrinks(p, x, q.displayed, d); }
      if w < |q.waiting| { RemoveShrinks(p, x, q.waiting, w); }
    }
  }

  lemma SetDisplayedShrinks(q: Queues, i: nat, n: Note)
    requires i < |q.displayed| && SameIdentity(q.displayed[i], n)
    ensures Shrinks(q, SetDisplayed(q, i, n)) && ShrinksOnScreen(q, SetDisplayed(q, i, n))
  {
    forall p: Label, x: int ensures Count(p, x, q.displayed[i := n]) == Count(p, x, q.displayed) {
      CountUpdate(p, x, q.displayed, i, n);
    }
  }

  lemma SetWaitingShrinks(q: Queues, i: nat, n: Note)
    requires i < |q.waiting| && SameIdentity(q.waiting[i], n)
    ensures Shrinks(q, SetWaiting(q, i, n))
  {
    forall p: Label, x: int ensures Count(p, x, q.waiting[i := n]) == Count(p, x, q.waiting) {
      CountUpdate(p, x, q.waiting, i, n);
    }
  }

  lemma ToWaitingShrinks(cfg: Settings, q: Queues, i: nat)
    requires i < |q.displayed|
    ensures Shrinks(q, ToWaiting(cfg, q, i)) && ShrinksOnScreen(q, ToWaiting(cfg, q, i))
  {
    forall p: Label, x: int
      ensures Count(p, x, ToWaiting(cfg, q, i).displayed) <= Count(p, x, q.displayed)
      ensures Current(p, x, ToWaiting(cfg, q, i)) == Current(p, x, q) {
      CountSplit(p, x, q.displayed, i);
      CountInsert(p, x, cfg, q.waiting, q.displayed[i]);
    }
  }

  lemma ToDisplayedShrinks(cfg: Settings, q: Queues, i: nat, time: int)
    requires i < |q.waiting|
    ensures Shrinks(q, ToDisplayed(cfg, q, i, time))
  {
    forall p: Label, x: int ensures Current(p, x, ToDisplayed(cfg, q, i, time)) == Current(p, x, q) {
      CountSplit(p, x, q.waiting, i);
      CountInsert(p, x, cfg, q.displayed, q.waiting[i].(start := time));
    }
  }

  lemma SwapShrinks(cfg: Settings, q: Queues, time: int)
    requires q.waiting != [] && q.displayed != []
    ensures Shrinks(q, Swap(cfg, time, q))
  {
    var last := |q.displayed| - 1;
    assert RemoveAt(q.displayed, last) == q.displayed[..last] && RemoveAt(q.waiting, 0) == q.waiting[1..];
    forall p: Label, x: int ensures Current(p, x, Swap(cfg, time, q)) == Current(p, x, q) {
      CountSplit(p, x, q.displayed, last);
      CountSplit(p, x, q.waiting, 0);
      CountInsert(p, x, cfg, q.displayed[..last], q.waiting[0].(start := time));
      CountInsert(p, x, cfg, q.waiting[1..], q.displayed[last]);
    }
  }

  // ---------- the loops ----------

  /** What a turn of the first loop may do to labels. */
  ghost predicate Thins(q: Queues, r: Queues) {
    Shrinks(q, r) && ShrinksOnScreen(q, r)
  }

  lemma ThinsTransitive(q: Queues, r: Queues, s: Queues)
    requires Thins(q, r) && Thins(r, s)
    ensures Thins(q, s)
  {
    ShrinksTransitive(q, r, s);
    forall p: Label, x: int ensures Count(p, x, s.displayed) <= Count(p, x, q.displayed) {
      assert Count(p, x, s.displayed) <= Count(p, x, r.displayed) <= Count(p, x, q.displayed);
    }
  }

  lemma MarkedThins(cfg: Settings, q: Queues, i: nat, n: Note, reason: int)
    requires i < |q.displayed| && SameIdentity(q.displayed[i], n)
    ensures var c := SetDisplayed(q, i, n);
            && Thins(q, c)
            && Thins(q, CloseId(cfg, c, n.id, reason))
            && Thins(q, RemoveId(cfg, c, n.id, reason))
            && Thins(q, ToWaiting(cfg, c, i))
  {
    var c := SetDisplayed(q, i, n);
    SetDisplayedShrinks(q, i, n);
    CloseIdShrinks(cfg, c, n.id, reason);
    ToWaitingShrinks(cfg, c, i);
    ThinsTransitive(q, c, CloseId(cfg, c, n.id, reason));
    ThinsTransitive(q, c, RemoveId(cfg, c, n.id, reason));
    ThinsTransitive(q, c, ToWaiting(cfg, c, i));
  }

  lemma SweepStepThins(cfg: Settings, status: Status, time: int, clock: nat -> int, q: Queues, i: nat)
    requires i < |q.displayed|
    ensures Thins(q, SweepStep(cfg, status, time, clock, q, i).0)
  {
    var n := q.displayed[i];
    if n.locked {
    } else if n.closeMark != 0 {
      MarkedThins(cfg, q, i, n.(closeMark := 0), n.closeMark);
    } else if n.removeMark != 0 {
      MarkedThins(cfg, q, i, n.(removeMark := 0), n.removeMark);
    } else {
      SweepUnmarkedThins(cfg, status, time, clock, q, i);
    }
  }

  lemma SweepUnmarkedThins(cfg: Settings, status: Status, time: int, clock: nat -> int, q: Queues, i: nat)
    requires i < |q.displayed|
    ensures Thins(q, SweepUnmarked(cfg, status, time, clock, q, i).0)
  {
    var n := q.displayed[i];
    CloseIdShrinks(cfg, q, n.id, REASON_TIME);
    MarkedThins(cfg, q, i, Touched(n, status, clock(n.key)), REASON_UNDEF);
  }

  lemma {:induction false} SweepThins(cfg: Settings, status: Status, time: int, clock: nat -> int, q: Queues, i: nat)
    requires i <= |q.displayed|
    ensures Thins(q, Sweep(cfg, status, time, clock, q, i))
    decreases |q.displayed| - i
  {
    if i < |q.displayed| {
      var s := SweepStep(cfg, status, time, clock, q, i);
      SweepStepThins(cfg, status, time, clock, q, i);
      SweepThins(cfg, status, time, clock, s.0, s.1);
      ThinsTransitive(q, s.0, Sweep(cfg, status, time, clock, s.0, s.1));
    }
  }

  lemma PromoteStepShrinks(cfg: Settings, status: Status, time: int, q: Queues, i: nat)
    requires i < |q.waiting|
    ensures Shrinks(q, PromoteStep(cfg, status, time, q, i).0)
  {
    var n := q.waiting[i];
    var c := SetWaiting(q, i, n.(start := time));
    SetWaitingShrinks(q, i, n.(start := time));
    CloseIdShrinks(cfg, c, n.id, REASON_UNDEF);
    CloseIdShrinks(cfg, c, n.id, REASON_USER);
    ShrinksTransitive(q, c, CloseId(cfg, c, n.id, REASON_UNDEF));
    ShrinksTransitive(q, c, CloseId(cfg, c, n.id, REASON_USER));
    ToDisplayedShrinks(cfg, q, i, time);
  }

  lemma {:induction false} PromoteShrinks(cfg: Settings, status: Status, time: int, limit: int, q: Queues, i: nat)
    requires i <= |q.waiting|
    ensures Shrinks(q, Promote(cfg, status, time, limit, q, i))
    decreases |q.waiting| - i
  {
    if i < |q.waiting| && |q.displayed| < limit {
      var s := PromoteStep(cfg, status, time, q, i);
      PromoteStepShrinks(cfg, status, time, q, i);
      PromoteShrinks(cfg, status, time, limit, s.0, s.1);
      ShrinksTransitive(q, s.0, Promote(cfg, status, time, limit, s.0, s.1));
    }
  }

  lemma {:induction false} TrimShrinks(cfg: Settings, limit: int, q: Queues)
    requires 0 <= limit
    ensures Shrinks(q, Trim(cfg, limit, q))
    decreases |q.displayed|
  {
    if |q.displayed| > limit {
      var r := ToWaiting(cfg, q, |q.displayed| - 1);
      ToWaitingShrinks(cfg, q, |q.displayed| - 1);
      TrimShrinks(cfg, limit, r);
      ShrinksTransitive(q, r, Trim(cfg, limit, r));
    }
  }

  lemma {:induction false} SeepShrinks(cfg: Settings, status: Status, time: int, q: Queues)
    ensures Shrinks(q, Seep(cfg, status, time, q))
    decreases UrgencyInversions(cfg, q.displayed, q.waiting), AllDescents(cfg, q.displayed, q.waiting),
              Depth(cfg, q.displayed, q.waiting)
  {
    if Seeps(cfg, status, q) {
      var r := Swap(cfg, time, q);
      SwapDecreases(cfg, status, time, q);
      SwapShrinks(cfg, q, time);
      SeepShrinks(cfg, status, time, r);
      ShrinksTransitive(q, r, Seep(cfg, status, time, r));
    }
  }

  /** No update makes a label more frequent, whatever ids there are. */
  lemma UpdateShrinks(cfg: Settings, status: Status, time: int, clock: nat -> int, q: Queues)
    ensures Shrinks(q, Updated(cfg, status, time, clock, q))
  {
    var s, p := AfterSweep(cfg, status, time, clock, q), AfterPromote(cfg, status, time, clock, q);
    var t := AfterTrim(cfg, status, time, clock, q);
    SweepThins(cfg, status, time, clock, q, 0);
    PromoteShrinks(cfg, status, time, Limit(cfg, s), s, 0);
    TrimShrinks(cfg, Limit(cfg, s), p);
    SeepShrinks(cfg, status, time, t);
    ShrinksTransitive(q, s, p);
    ShrinksTransitive(q, p, t);
    ShrinksTransitive(q, t, Seep(cfg, status, time, t));
  }
}
