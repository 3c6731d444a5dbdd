/** What the fourth loop of `queues_update` misses, and exactly when: it only ever looks at
    the head of waiting, so a head that is held back hides what waits behind it. */
module HeldBack {
  import opened Notifications
  import opened SortedQueue
  import opened Seeping
  import opened QueueSpec
  import opened Conservation
  import opened Update
  import opened Scheduling

  /** How many of `s` rank no worse than `x`. */
  ghost function AtMost(cfg: Settings, s: seq<Note>, x: int): nat {
    if s == [] then 0 else (if Rank(cfg, s[0]) <= x then 1 else 0) + AtMost(cfg, s[1..], x)
  }

  /** The waiting notifications in front of the first that is held back. */
  function Reach(status: Status, w: seq<Note>): seq<Note> {
    if w == [] || !IsReady(w[0], status, false) then [] else [w[0]] + Reach(status, w[1..])
  }

  function ReadyOnes(status: Status, w: seq<Note>): seq<Note> {
    if w == [] then []
    else (if IsReady(w[0], status, false) then [w[0]] else []) + ReadyOnes(status, w[1..])
  }

  /** Those behind it that could be shown. */
  function Hidden(status: Status, w: seq<Note>): seq<Note> {
    if w == [] then []
    else if IsReady(w[0], status, false) then Hidden(status, w[1..])
    else ReadyOnes(status, w[1..])
  }

  /** No notification that could be shown ranks before one that is displayed. */
  ghost predicate NoneOutranked(cfg: Settings, status: Status, q: Queues) {
    forall d, w | d in q.displayed && w in q.waiting && IsReady(w, status, false) :: Rank(cfg, d) <= Rank(cfg, w)
  }

  /** For each hidden one, enough of what the loop can reach rank no worse to fill the
      screen. */
  ghost predicate HiddenCanWait(cfg: Settings, status: Status, q: Queues) {
    forall w | w in Hidden(status, q.waiting) :: CanWait(cfg, status, q, Rank(cfg, w))
  }

  ghost predicate CanWait(cfg: Settings, status: Status, q: Queues, x: int) {
    AtMost(cfg, q.displayed, x) + AtMost(cfg, Reach(status, q.waiting), x) >= |q.displayed|
  }

  // ---------- counting ----------

  lemma {:induction false} AtMostInsert(cfg: Settings, s: seq<Note>, n: Note, x: int)
    ensures AtMost(cfg, InsertSorted(cfg, s, n), x) == AtMost(cfg, s, x) + (if Rank(cfg, n) <= x then 1 else 0)
  {
    if s == [] || Cmp(cfg, s[0], n) >= 0 {
      assert ([n] + s)[1..] == s;
    } else {
      AtMostInsert(cfg, s[1..], n, x);
      assert ([s[0]] + InsertSorted(cfg, s[1..], n))[1..] == InsertSorted(cfg, s[1..], n);
    }
  }

  lemma {:induction false} AtMostLast(cfg: Settings, s: seq<Note>, x: int)
    requires s != []
    ensures AtMost(cfg, s, x) == AtMost(cfg, s[..|s| - 1], x) + (if Rank(cfg, s[|s| - 1]) <= x then 1 else 0)
  {
    if |s| > 1 {
      AtMostLast(cfg, s[1..], x);
      assert s[1..][..|s| - 2] == s[..|s| - 1][1..];
    } else {
      assert s[1..] == [] && s[..0] == [];
    }
  }

  lemma {:induction false} AtMostAll(cfg: Settings, s: seq<Note>, x: int)
    ensures AtMost(cfg, s, x) <= |s|
    ensures AtMost(cfg, s, x) == |s| <==> forall n | n in s :: Rank(cfg, n) <= x
  {
    if s != [] {
      AtMostAll(cfg, s[1..], x);
      assert forall n :: n in s <==> n == s[0] || n in s[1..];
    }
  }

  lemma {:induction false} ReadyMembers(status: Status, w: seq<Note>)
    ensures forall n :: n in ReadyOnes(status, w) <==> n in w && IsReady(n, status, false)
  {
    if w != [] {
      ReadyMembers(status, w[1..]);
      assert forall n :: n in w <==> n == w[0] || n in w[1..];
    }
  }

  lemma {:induction false} HiddenMembers(status: Status, w: seq<Note>)
    ensures forall n | n in Hidden(status, w) :: n in w && IsReady(n, status, false)
  {
    if w != [] {
      HiddenMembers(status, w[1..]);
      ReadyMembers(status, w[1..]);
      assert forall n :: n in w <==> n == w[0] || n in w[1..];
    }
  }

  // ---------- one swap ----------

  lemma SortedTail(cfg: Settings, base: int, s: seq<Note>)
    requires s != [] && Sorted(cfg, s) && AllInWindow(cfg, base, s)
    ensures Sorted(cfg, s[1..]) && AllInWindow(cfg, base, s[1..])
    ensures forall n | n in s :: Rank(cfg, s[0]) <= Rank(cfg, n)
  {
  }

  /** What ranks before `d` stays in reach, or out of reach, when `d` is pushed back. */
  lemma {:induction false} PushBackHidesNothing(cfg: Settings, base: int, status: Status, s: seq<Note>, d: Note, x: int)
    requires Sorted(cfg, s) && AllInWindow(cfg, base, s) && InWindow(cfg, base, d) && x < Rank(cfg, d)
    ensures AtMost(cfg, Reach(status, InsertSorted(cfg, s, d)), x) == AtMost(cfg, Reach(status, s), x)
    ensures forall m | Rank(cfg, m) == x :: m in Hidden(status, InsertSorted(cfg, s, d)) <==> m in Hidden(status, s)
  {
    if s != [] { CmpIsRankOrder(cfg, base, s[0], d); }
    if s == [] || Cmp(cfg, s[0], d) >= 0 {
      assert ([d] + s)[1..] == s;
      AllLater(cfg, base, status, s, x);
      ReadyMembers(status, s);
      HiddenMembers(status, s);
      NoneInReach(cfg, status, s, x);
      assert AtMost(cfg, [d] + Reach(status, s), x) == AtMost(cfg, Reach(status, s), x) by {
        assert ([d] + Reach(status, s))[1..] == Reach(status, s);
      }
    } else {
      var r := InsertSorted(cfg, s[1..], d);
      SortedTail(cfg, base, s);
      PushBackHidesNothing(cfg, base, status, s[1..], d, x);
      assert ([s[0]] + r)[1..] == r;
      InsertMembers(cfg, s[1..], d);
      ReadyMembers(status, r);
      ReadyMembers(status, s[1..]);
      assert ([s[0]] + Reach(status, r))[1..] == Reach(status, r);
      assert ([s[0]] + Reach(status, s[1..]))[1..] == Reach(status, s[1..]);
    }
  }

  lemma AllLater(cfg: Settings, base: int, status: Status, s: seq<Note>, x: int)
    requires Sorted(cfg, s) && (s != [] ==> x < Rank(cfg, s[0]))
    ensures forall n | n in s :: x < Rank(cfg, n)
  {
  }

  lemma {:induction false} NoneInReach(cfg: Settings, status: Status, s: seq<Note>, x: int)
    requires forall n | n in s :: x < Rank(cfg, n)
    ensures AtMost(cfg, Reach(status, s), x) == 0
  {
    if s != [] && IsReady(s[0], status, false) {
      NoneInReach(cfg, status, s[1..], x);
      assert ([s[0]] + Reach(status, s[1..]))[1..] == Reach(status, s[1..]);
    }
  }

  lemma FullCanWait(cfg: Settings, status: Status, q: Queues, x: int)
    requires forall n | n in q.displayed :: Rank(cfg, n) <= x
    ensures CanWait(cfg, status, q, x)
  {
    AtMostAll(cfg, q.displayed, x);
  }

  /** Behind everything displayed one can always wait. */
  lemma LastCanWait(cfg: Settings, base: int, status: Status, time: int, q: Queues, x: int)
    requires Ordered(cfg, base, true, q) && Seeps(cfg, status, q)
    requires x >= Rank(cfg, q.displayed[|q.displayed| - 1])
    ensures CanWait(cfg, status, q, x) && CanWait(cfg, status, Swap(cfg, time, q), x)
  {
    var last := |q.displayed| - 1;
    var d, w := q.displayed[last], q.waiting[0];
    assert d in q.displayed && w in q.waiting;
    CmpIsRankOrder(cfg, base, d, w);
    InsertMembers(cfg, q.displayed[..last], w.(start := time));
    FullCanWait(cfg, status, q, x);
    FullCanWait(cfg, status, Swap(cfg, time, q), x);
  }

  lemma SwapShownCount(cfg: Settings, time: int, q: Queues, x: int)
    requires q.displayed != [] && q.waiting != [] && x < Rank(cfg, q.displayed[|q.displayed| - 1])
    ensures AtMost(cfg, Swap(cfg, time, q).displayed, x)
            == AtMost(cfg, q.displayed, x) + (if Rank(cfg, q.waiting[0]) <= x then 1 else 0)
  {
    AtMostInsert(cfg, q.displayed[..|q.displayed| - 1], q.waiting[0].(start := time), x);
    AtMostLast(cfg, q.displayed, x);
  }

  lemma SwapReachCount(cfg: Settings, base: int, status: Status, time: int, q: Queues, x: int)
    requires Ordered(cfg, base, true, q) && Seeps(cfg, status, q)
    requires x < Rank(cfg, q.displayed[|q.displayed| - 1])
    ensures AtMost(cfg, Reach(status, q.waiting), x)
            == (if Rank(cfg, q.waiting[0]) <= x then 1 else 0)
                    + AtMost(cfg, Reach(status, Swap(cfg, time, q).waiting), x)
  {
    var d := q.displayed[|q.displayed| - 1];
    assert d in q.displayed;
    SortedTail(cfg, base, q.waiting);
    PushBackHidesNothing(cfg, base, status, q.waiting[1..], d, x);
    ReachStep(cfg, status, q.waiting, x);
  }

  /** In front of the last displayed one a swap changes no count. */
  lemma SwapKeepsCounts(cfg: Settings, base: int, status: Status, time: int, q: Queues, x: int)
    requires Ordered(cfg, base, true, q) && Seeps(cfg, status, q)
    requires x < Rank(cfg, q.displayed[|q.displayed| - 1])
    ensures CanWait(cfg, status, q, x) <==> CanWait(cfg, status, Swap(cfg, time, q), x)
  {
    SwapShownCount(cfg, time, q, x);
    SwapReachCount(cfg, base, status, time, q, x);
  }

  lemma ReachStep(cfg: Settings, status: Status, w: seq<Note>, x: int)
    requires w != [] && IsReady(w[0], status, false)
    ensures AtMost(cfg, Reach(status, w), x)
            == (if Rank(cfg, w[0]) <= x then 1 else 0) + AtMost(cfg, Reach(status, w[1..]), x)
  {
    assert ([w[0]] + Reach(status, w[1..]))[1..] == Reach(status, w[1..]);
  }

  lemma SwapKeepsHidden(cfg: Settings, base: int, status: Status, time: int, q: Queues)
    requires Ordered(cfg, base, true, q) && Seeps(cfg, status, q)
    ensures HiddenCanWait(cfg, status, q) <==> HiddenCanWait(cfg, status, Swap(cfg, time, q))
  {
    var last := |q.displayed| - 1;
    var d, r := q.displayed[last], Swap(cfg, time, q);
    assert d in q.displayed;
    SortedTail(cfg, base, q.waiting);
    forall m ensures CanWait(cfg, status, q, Rank(cfg, m)) <==> CanWait(cfg, status, r, Rank(cfg, m))
             ensures Rank(cfg, m) >= Rank(cfg, d) ==> CanWait(cfg, status, q, Rank(cfg, m)) {
      if Rank(cfg, m) >= Rank(cfg, d) {
        LastCanWait(cfg, base, status, time, q, Rank(cfg, m));
      } else {
        SwapKeepsCounts(cfg, base, status, time, q, Rank(cfg, m));
      }
    }
    forall m | Rank(cfg, m) < Rank(cfg, d) ensures m in Hidden(status, r.waiting) <==> m in Hidden(status, q.waiting) {
      PushBackHidesNothing(cfg, base, status, q.waiting[1..], d, Rank(cfg, m));
    }
  }

  // ---------- the end of the loop ----------

  lemma SettledIff(cfg: Settings, base: int, status: Status, q: Queues)
    requires Ordered(cfg, base, true, q) && !Seeps(cfg, status, q)
    ensures NoneOutranked(cfg, status, q) <==> HiddenCanWait(cfg, status, q)
  {
    HiddenMembers(status, q.waiting);
    if q.waiting != [] && q.displayed != [] {
      var last := q.displayed[|q.displayed| - 1];
      var head := q.waiting[0];
      assert last in q.displayed && head in q.waiting;
      CmpIsRankOrder(cfg, base, last, head);
      SortedTail(cfg, base, q.waiting);
      if IsReady(head, status, false) {
        HeadKeepsAll(cfg, base, status, q);
      } else {
        ReadyMembers(status, q.waiting[1..]);
        assert forall n :: n in q.waiting <==> n == head || n in q.waiting[1..];
        forall m | m in Hidden(status, q.waiting)
          ensures CanWait(cfg, status, q, Rank(cfg, m))
                  <==> forall d | d in q.displayed :: Rank(cfg, d) <= Rank(cfg, m) {
          AtMostAll(cfg, q.displayed, Rank(cfg, m));
        }
      }
    }
  }

  lemma HeadKeepsAll(cfg: Settings, base: int, status: Status, q: Queues)
    requires Ordered(cfg, base, true, q) && q.displayed != [] && q.waiting != []
    requires Rank(cfg, q.displayed[|q.displayed| - 1]) <= Rank(cfg, q.waiting[0])
    ensures NoneOutranked(cfg, status, q) && HiddenCanWait(cfg, status, q)
  {
    HiddenMembers(status, q.waiting);
    SortedTail(cfg, base, q.waiting);
    forall m | m in q.waiting ensures CanWait(cfg, status, q, Rank(cfg, m)) {
      AtMostAll(cfg, q.displayed, Rank(cfg, m));
    }
  }

  lemma {:induction false} SeepIff(cfg: Settings, base: int, status: Status, time: int, q: Queues)
    requires Ordered(cfg, base, true, q)
    ensures NoneOutranked(cfg, status, Seep(cfg, status, time, q)) <==> HiddenCanWait(cfg, status, q)
    decreases UrgencyInversions(cfg, q.displayed, q.waiting), AllDescents(cfg, q.displayed, q.waiting),
              Depth(cfg, q.displayed, q.waiting)
  {
    if Seeps(cfg, status, q) {
      SwapDecreases(cfg, status, time, q);
      SwapOrdered(cfg, base, true, time, q);
      SwapKeepsHidden(cfg, base, status, time, q);
      SeepIff(cfg, base, status, time, Swap(cfg, time, q));
    } else {
      SettledIff(cfg, base, status, q);
    }
  }

  /** Exactly when the fourth loop gets the best onto the screen: every notification that could
      be shown but waits behind a held-back one has enough notifications ranked no worse,
      displayed or in reach, to fill the screen without it. */
  lemma TrimmedShownIff(cfg: Settings, base: int, status: Status, time: int, clock: nat -> int, q: Queues)
    requires Once(Id, q) && Comparable(cfg, base, q) && Sorted(cfg, q.displayed) && Sorted(cfg, q.waiting)
    requires cfg.sort != SortType.ById && forall k :: time <= clock(k)
    ensures NoneOutranked(cfg, status, Updated(cfg, status, time, clock, q))
            <==> HiddenCanWait(cfg, status, AfterTrim(cfg, status, time, clock, q))
  {
    var t := AfterTrim(cfg, status, time, clock, q);
    if |t.displayed| == LimitOf(cfg, status, time, clock, q) {
      TrimmedOrdered(cfg, base, true, status, time, clock, q);
      SeepIff(cfg, base, status, time, t);
    } else {
      UpdateConservesWork(cfg, status, time, clock, q);
      HiddenMembers(status, t.waiting);
    }
  }

  // ---------- a better one hidden ----------

  /** A state that meets every invariant, and that an update leaves as it is. On a full screen in
      fullscreen mode a notification of low urgency is shown; the head of waiting is delayed; behind it waits
      one of normal urgency that could be shown. */
  lemma HeldBackHeadHides(cfg: Settings)
    requires cfg.sort == UrgencyDescending && cfg.notificationLimit == 1
    ensures var status := Status(true, 0, false, false);
            var q := Hiding();
            && Inv(q) && Comparable(cfg, 0, q) && Sorted(cfg, q.displayed) && Sorted(cfg, q.waiting)
            && Updated(cfg, status, 0, _ => 0, q) == q
            && IsReady(q.waiting[1], status, false) && Rank(cfg, q.waiting[1]) < Rank(cfg, q.displayed[0])
            && !NoneOutranked(cfg, status, q)
  {
    var status, q := Status(true, 0, false, false), Hiding();
    var clock: nat -> int := _ => 0;
    HidingInv();
    assert SetDisplayed(q, 0, q.displayed[0]) == q;
    assert SweepUnmarked(cfg, status, 0, clock, q, 0) == (q, 1);
    assert SweepStep(cfg, status, 0, clock, q, 0) == (q, 1);
    assert Sweep(cfg, status, 0, clock, q, 1) == q;
    assert AfterSweep(cfg, status, 0, clock, q) == q;
    assert AfterTrim(cfg, status, 0, clock, q) == q;
    assert !Seeps(cfg, status, q);
    assert q.displayed[0] in q.displayed && q.waiting[1] in q.waiting;
  }

  const TEXT: Content := Content("text", "app", "text", "", "", -1, IconOff, None, None)

  function Plain(key: nat, id: int, urgency: Urgency, fullscreen: Fullscreen): Note {
    Note(key, id, urgency, 0, 0, 0, false, 0, fullscreen, false, false, false, false, 0, 0, false, false, {},
            "default", 0, TEXT)
  }

  function Hiding(): Queues {
    Queues([Plain(1, 3, 2, FsDelay), Plain(2, 4, 1, FsShow)], [Plain(0, 2, 0, FsShow)], [], 4, 3, [], [])
  }

  lemma HidingInv()
    ensures Inv(Hiding())
  {
    var q := Hiding();
    forall p, x ensures Count(p, x, q.waiting) == One(p, x, q.waiting[0]) + One(p, x, q.waiting[1])
                ensures Count(p, x, q.displayed) == One(p, x, q.displayed[0]) {
      var w := q.waiting;
      assert w[1..] == [w[1]] && [w[1]][1..] == [] && q.displayed[1..] == [];
      assert Count(p, x, [w[1]]) == One(p, x, w[1]);
    }
  }
}
