/** Exactly when an update gets the best onto the screen, decided on the queues before it. */
module Lineup {
  import opened Notifications
  import opened SortedQueue
  import opened QueueSpec
  import opened Conservation
  import opened Distinct
  import opened Update
  import opened Scheduling
  import opened Closing
  import opened HeldBack

  // ---------- who stands where, on the queues before the update ----------

  /** The waiting notifications that get a free place. */
  function Entering(w: seq<Note>, status: Status, room: int): seq<Note> {
    if w == [] || room <= 0 then []
    else if TakesPlace(w[0], status) then [w[0]] + Entering(w[1..], status, room - 1)
    else Entering(w[1..], status, room)
  }

  /** Those that go on waiting. */
  function Remaining(w: seq<Note>, status: Status, room: int): seq<Note> {
    if w == [] || room <= 0 then w
    else if Skips(w[0], status) then Remaining(w[1..], status, room)
    else if TakesPlace(w[0], status) then Remaining(w[1..], status, room - 1)
    else [w[0]] + Remaining(w[1..], status, room)
  }

  function Reversed(s: seq<Note>): (r: seq<Note>)
    ensures |r| == |s|
  {
    if s == [] then [] else Reversed(s[1..]) + [s[0]]
  }

  /** Who is to be on screen and who is to wait before the better ones are swapped in. What is
      shown and may stay keeps its place, as far as there are places. */
  function LineUp(cfg: Settings, status: Status, time: int, q: Queues): Queues {
    var shown, returning := Shown(q.displayed, status, time), Returning(q.displayed, status, time);
    var places, room := Places(cfg, status, time, q), Room(cfg, status, time, q);
    if room >= 0 then
      q.(displayed := shown + Entering(q.waiting, status, room),
         waiting := InsertAll(cfg, Remaining(q.waiting, status, room), returning))
    else
      q.(displayed := shown[..places],
         waiting := InsertAll(cfg, InsertAll(cfg, q.waiting, returning), Reversed(shown[places..])))
  }

  // ---------- equal up to the start of display times ----------

  ghost predicate Alike(s: seq<Note>, t: seq<Note>) {
    |s| == |t| && forall i | 0 <= i < |s| :: t[i] == s[i].(start := t[i].start)
  }

  lemma {:induction false} AtMostAlike(cfg: Settings, s: seq<Note>, t: seq<Note>, x: int)
    requires Alike(s, t)
    ensures AtMost(cfg, s, x) == AtMost(cfg, t, x)
  {
    if s != [] { AtMostAlike(cfg, s[1..], t[1..], x); }
  }

  lemma AlikeCons(n: Note, m: Note, s: seq<Note>, t: seq<Note>)
    requires Alike(s, t) && m == n.(start := m.start)
    ensures Alike([n] + s, [m] + t)
  {
  }

  lemma {:induction false} ReachAlike(status: Status, s: seq<Note>, t: seq<Note>)
    requires Alike(s, t)
    ensures Alike(Reach(status, s), Reach(status, t))
  {
    if s != [] && IsReady(s[0], status, false) {
      ReachAlike(status, s[1..], t[1..]);
      AlikeCons(s[0], t[0], Reach(status, s[1..]), Reach(status, t[1..]));
    }
  }

  lemma {:induction false} ReadyAlike(status: Status, s: seq<Note>, t: seq<Note>)
    requires Alike(s, t)
    ensures Alike(ReadyOnes(status, s), ReadyOnes(status, t))
  {
    if s != [] {
      ReadyAlike(status, s[1..], t[1..]);
      AlikeCons(s[0], t[0], ReadyOnes(status, s[1..]), ReadyOnes(status, t[1..]));
    }
  }

  lemma {:induction false} HiddenAlike(status: Status, s: seq<Note>, t: seq<Note>)
    requires Alike(s, t)
    ensures Alike(Hidden(status, s), Hidden(status, t))
  {
    if s != [] {
      HiddenAlike(status, s[1..], t[1..]);
      ReadyAlike(status, s[1..], t[1..]);
    }
  }

  lemma CmpAlike(cfg: Settings, a: Note, b: Note, n: Note, m: Note)
    requires b == a.(start := b.start) && m == n.(start := m.start)
    ensures Cmp(cfg, a, n) == Cmp(cfg, b, m)
  {
  }

  lemma {:induction false} InsertAlike(cfg: Settings, s: seq<Note>, t: seq<Note>, n: Note, m: Note)
    requires Alike(s, t) && m == n.(start := m.start)
    ensures Alike(InsertSorted(cfg, s, n), InsertSorted(cfg, t, m))
  {
    if s != [] { CmpAlike(cfg, s[0], t[0], n, m); }
    if s == [] || Cmp(cfg, s[0], n) >= 0 {
      AlikeCons(n, m, s, t);
    } else {
      InsertAlike(cfg, s[1..], t[1..], n, m);
      AlikeCons(s[0], t[0], InsertSorted(cfg, s[1..], n), InsertSorted(cfg, t[1..], m));
    }
  }

  lemma {:induction false} InsertAllAlike(cfg: Settings, w: seq<Note>, w': seq<Note>, s: seq<Note>, t: seq<Note>)
    requires Alike(w, w') && Alike(s, t)
    ensures Alike(InsertAll(cfg, w, s), InsertAll(cfg, w', t))
    decreases |s|
  {
    if s != [] {
      InsertAlike(cfg, w, w', s[0], t[0]);
      InsertAllAlike(cfg, InsertSorted(cfg, w, s[0]), InsertSorted(cfg, w', t[0]), s[1..], t[1..]);
    }
  }

  lemma {:induction false} ReversedAlike(s: seq<Note>, t: seq<Note>)
    requires Alike(s, t)
    ensures Alike(Reversed(s), Reversed(t))
  {
    if s != [] { ReversedAlike(s[1..], t[1..]); }
  }

  /** Two states that put the same notifications on screen and let alike ones wait. */
  ghost predicate SameLine(cfg: Settings, q: Queues, r: Queues) {
    && |q.displayed| == |r.displayed|
    && (forall x :: AtMost(cfg, q.displayed, x) == AtMost(cfg, r.displayed, x))
    && Alike(q.waiting, r.waiting)
  }

  lemma CanWaitAlike(cfg: Settings, status: Status, q: Queues, r: Queues, x: int)
    requires SameLine(cfg, q, r)
    ensures CanWait(cfg, status, q, x) <==> CanWait(cfg, status, r, x)
  {
    ReachAlike(status, q.waiting, r.waiting);
    AtMostAlike(cfg, Reach(status, q.waiting), Reach(status, r.waiting), x);
    assert AtMost(cfg, q.displayed, x) == AtMost(cfg, r.displayed, x);
  }

  lemma HiddenCanWaitAlike(cfg: Settings, status: Status, q: Queues, r: Queues)
    requires SameLine(cfg, q, r)
    ensures HiddenCanWait(cfg, status, q) <==> HiddenCanWait(cfg, status, r)
  {
    var h, k := Hidden(status, q.waiting), Hidden(status, r.waiting);
    HiddenAlike(status, q.waiting, r.waiting);
    forall x ensures CanWait(cfg, status, q, x) <==> CanWait(cfg, status, r, x) {
      CanWaitAlike(cfg, status, q, r, x);
    }
    forall i | 0 <= i < |h| ensures h[i] in h && k[i] in k && Rank(cfg, h[i]) == Rank(cfg, k[i]) { }
    if HiddenCanWait(cfg, status, q) {
      forall n | n in k ensures CanWait(cfg, status, r, Rank(cfg, n)) {
        var i :| 0 <= i < |k| && k[i] == n;
        assert h[i] in h;
      }
    }
    if HiddenCanWait(cfg, status, r) {
      forall n | n in h ensures CanWait(cfg, status, q, Rank(cfg, n)) {
        var i :| 0 <= i < |h| && h[i] == n;
        assert k[i] in k;
      }
    }
  }

  // ---------- the second loop ----------

  lemma {:induction false} AtMostConcat(cfg: Settings, s: seq<Note>, t: seq<Note>, x: int)
    ensures AtMost(cfg, s + t, x) == AtMost(cfg, s, x) + AtMost(cfg, t, x)
  {
    if s == [] {
      assert s + t == t;
    } else {
      assert (s + t)[1..] == s[1..] + t;
      AtMostConcat(cfg, s[1..], t, x);
    }
  }

  /** Who still waits after the second loop goes on from position `i`. */
  ghost predicate WaitsOn(status: Status, limit: int, q: Queues, i: nat, r: Queues)
    requires i <= |q.waiting|
  {
    r.waiting == q.waiting[..i] + Remaining(q.waiting[i..], status, limit - |q.displayed|)
  }

  /** And who is on screen, up to order. */
  ghost predicate ShowsOn(cfg: Settings, status: Status, limit: int, q: Queues, i: nat, r: Queues)
    requires i <= |q.waiting|
  {
    Joins(cfg, q.displayed, Entering(q.waiting[i..], status, limit - |q.displayed|), r.displayed)
  }

  /** `r` ranks like `d` and `entering` together. */
  ghost predicate Joins(cfg: Settings, d: seq<Note>, entering: seq<Note>, r: seq<Note>) {
    |r| == |d| + |entering| && forall x :: AtMost(cfg, r, x) == AtMost(cfg, d, x) + AtMost(cfg, entering, x)
  }

  /** `r` is what the second loop makes of `q` from position `i` on. */
  ghost predicate Promotes(cfg: Settings, status: Status, limit: int, q: Queues, i: nat, r: Queues)
    requires i <= |q.waiting|
  {
    WaitsOn(status, limit, q, i, r) && ShowsOn(cfg, status, limit, q, i, r)
  }

  lemma EntersFirst(cfg: Settings, w: Note, later: seq<Note>, d: seq<Note>, n: Note, x: int)
    requires n == w.(start := n.start)
    ensures AtMost(cfg, InsertSorted(cfg, d, n), x) + AtMost(cfg, later, x)
            == AtMost(cfg, d, x) + AtMost(cfg, [w] + later, x)
  {
    AtMostInsert(cfg, d, n, x);
    assert ([w] + later)[1..] == later;
  }

  lemma ShownWaitsOn(status: Status, limit: int, q: Queues, s: Queues, i: nat, r: Queues)
    requires i < |q.waiting| && |q.displayed| < limit && TakesPlace(q.waiting[i], status)
    requires s.waiting == RemoveAt(q.waiting, i) && |s.displayed| == |q.displayed| + 1
    requires WaitsOn(status, limit, s, i, r)
    ensures WaitsOn(status, limit, q, i, r)
  {
    RemoveSlices(q.waiting, i);
  }

  lemma EnteringFirst(w: seq<Note>, i: nat, status: Status, room: int)
    requires i < |w| && room > 0 && TakesPlace(w[i], status)
    ensures Entering(w[i..], status, room) == [w[i]] + Entering(w[i + 1..], status, room - 1)
  {
    assert w[i..][1..] == w[i + 1..];
  }

  lemma JoinsFirst(cfg: Settings, w: Note, later: seq<Note>, d: seq<Note>, n: Note, r: seq<Note>)
    requires n == w.(start := n.start) && Joins(cfg, InsertSorted(cfg, d, n), later, r)
    ensures Joins(cfg, d, [w] + later, r)
  {
    forall x ensures AtMost(cfg, r, x) == AtMost(cfg, d, x) + AtMost(cfg, [w] + later, x) {
      EntersFirst(cfg, w, later, d, n, x);
    }
  }

  lemma ShowsLater(cfg: Settings, status: Status, limit: int, w: seq<Note>, i: nat, s: Queues, r: Queues)
    requires i < |w| && s.waiting == RemoveAt(w, i) && ShowsOn(cfg, status, limit, s, i, r)
    ensures Joins(cfg, s.displayed, Entering(w[i + 1..], status, limit - |s.displayed|), r.displayed)
  {
    RemoveSlices(w, i);
  }

  lemma ShowsEarlier(cfg: Settings, status: Status, limit: int, q: Queues, i: nat, r: Queues)
    requires i < |q.waiting| && |q.displayed| < limit && TakesPlace(q.waiting[i], status)
    requires Joins(cfg, q.displayed, [q.waiting[i]] + Entering(q.waiting[i + 1..], status, limit - |q.displayed| - 1),
                   r.displayed)
    ensures ShowsOn(cfg, status, limit, q, i, r)
  {
    EnteringFirst(q.waiting, i, status, limit - |q.displayed|);
  }

  lemma ShownShowsOn(cfg: Settings, status: Status, limit: int, q: Queues, s: Queues, i: nat, n: Note, r: Queues)
    requires i < |q.waiting| && |q.displayed| < limit && TakesPlace(q.waiting[i], status)
    requires n == q.waiting[i].(start := n.start)
    requires s.waiting == RemoveAt(q.waiting, i) && s.displayed == InsertSorted(cfg, q.displayed, n)
    requires ShowsOn(cfg, status, limit, s, i, r)
    ensures ShowsOn(cfg, status, limit, q, i, r)
  {
    ShowsLater(cfg, status, limit, q.waiting, i, s, r);
    var later := Entering(q.waiting[i + 1..], status, limit - |s.displayed|);
    JoinsFirst(cfg, q.waiting[i], later, q.displayed, n, r.displayed);
    ShowsEarlier(cfg, status, limit, q, i, r);
  }

  lemma SkippedPromotes(cfg: Settings, status: Status, limit: int, q: Queues, s: Queues, i: nat, r: Queues)
    requires i < |q.waiting| && |q.displayed| < limit && Skips(q.waiting[i], status)
    requires s.waiting == RemoveAt(q.waiting, i) && s.displayed == q.displayed
    requires Promotes(cfg, status, limit, s, i, r)
    ensures Promotes(cfg, status, limit, q, i, r)
  {
    RemoveSlices(q.waiting, i);
  }

  lemma PassedPromotes(cfg: Settings, status: Status, limit: int, q: Queues, i: nat, r: Queues)
    requires i < |q.waiting| && |q.displayed| < limit
    requires !TakesPlace(q.waiting[i], status) && !Skips(q.waiting[i], status)
    requires Promotes(cfg, status, limit, q, i + 1, r)
    ensures Promotes(cfg, status, limit, q, i, r)
  {
    assert q.waiting[i..][1..] == q.waiting[i + 1..] && q.waiting[..i + 1] == q.waiting[..i] + [q.waiting[i]];
    Regrouped(q.waiting[..i], q.waiting[i], Remaining(q.waiting[i + 1..], status, limit - |q.displayed|));
  }

  lemma {:induction false} PromotePromotes(cfg: Settings, status: Status, time: int, limit: int, q: Queues, i: nat)
    requires Once(Id, q) && i <= |q.waiting|
    ensures Promotes(cfg, status, limit, q, i, Promote(cfg, status, time, limit, q, i))
    decreases |q.waiting| - i
  {
    if i == |q.waiting| || |q.displayed| >= limit {
      assert q.waiting == q.waiting[..i] + q.waiting[i..];
    } else {
      var n, s := q.waiting[i], PromoteStep(cfg, status, time, q, i);
      var r := Promote(cfg, status, time, limit, s.0, s.1);
      PromoteStepFate(cfg, status, time, q, i);
      PromoteStepShrinks(cfg, status, time, q, i);
      OnceShrinks(Id, q, s.0);
      PromotePromotes(cfg, status, time, limit, s.0, s.1);
      if Skips(n, status) {
        SkippedPromotes(cfg, status, limit, q, s.0, i, r);
      } else if TakesPlace(n, status) {
        ShownWaitsOn(status, limit, q, s.0, i, r);
        ShownShowsOn(cfg, status, limit, q, s.0, i, n.(start := time), r);
      } else {
        PassedPromotes(cfg, status, limit, q, i, r);
      }
    }
  }

  // ---------- what came back from the screen waits behind nothing ----------

  lemma {:induction false} RemainingMembers(w: seq<Note>, status: Status, room: int)
    ensures forall n | n in Remaining(w, status, room) :: n in w
  {
    if w != [] && room > 0 {
      RemainingMembers(w[1..], status, room);
      RemainingMembers(w[1..], status, room - 1);
    }
  }

  lemma InsertInFront(cfg: Settings, s: seq<Note>, n: Note)
    requires forall m | m in s :: Cmp(cfg, m, n) >= 0
    ensures InsertSorted(cfg, s, n) == [n] + s
  {
  }

  lemma AllBehind(cfg: Settings, base: int, w: seq<Note>, n: Note)
    requires w != [] && Sorted(cfg, w) && AllInWindow(cfg, base, w) && InWindow(cfg, base, n) && Cmp(cfg, w[0], n) >= 0
    ensures forall m | m in w :: Cmp(cfg, m, n) >= 0
  {
    CmpIsRankOrder(cfg, base, w[0], n);
    forall m | m in w ensures Cmp(cfg, m, n) >= 0 {
      CmpIsRankOrder(cfg, base, m, n);
      SortedTail(cfg, base, w);
    }
  }

  /** Inserting one that is held back, and taking the others out, can be done in either order. */
  lemma {:induction false} RemainingInsert(cfg: Settings, base: int, w: seq<Note>, n: Note, status: Status, room: int)
    requires Sorted(cfg, w) && AllInWindow(cfg, base, w) && InWindow(cfg, base, n)
    requires !Skips(n, status) && !TakesPlace(n, status)
    ensures Remaining(InsertSorted(cfg, w, n), status, room) == InsertSorted(cfg, Remaining(w, status, room), n)
    ensures Entering(InsertSorted(cfg, w, n), status, room) == Entering(w, status, room)
  {
    if room > 0 {
      if w == [] || Cmp(cfg, w[0], n) >= 0 {
        assert ([n] + w)[1..] == w;
        if w != [] { AllBehind(cfg, base, w, n); }
        RemainingMembers(w, status, room);
        InsertInFront(cfg, Remaining(w, status, room), n);
      } else {
        var r := InsertSorted(cfg, w[1..], n);
        var room' := if TakesPlace(w[0], status) then room - 1 else room;
        assert ([w[0]] + r)[1..] == r;
        SortedTail(cfg, base, w);
        RemainingInsert(cfg, base, w[1..], n, status, room');
        KeepsFirst(cfg, w[0], Remaining(w[1..], status, room), n);
      }
    }
  }

  lemma KeepsFirst(cfg: Settings, m: Note, s: seq<Note>, n: Note)
    ensures Cmp(cfg, m, n) < 0 ==> InsertSorted(cfg, [m] + s, n) == [m] + InsertSorted(cfg, s, n)
  {
    assert ([m] + s)[1..] == s;
  }

  lemma {:induction false} RemainingInsertAll(cfg: Settings, base: int, w: seq<Note>, s: seq<Note>, status: Status,
                                              room: int)
    requires Sorted(cfg, w) && AllInWindow(cfg, base, w) && AllInWindow(cfg, base, s)
    requires forall n | n in s :: !Skips(n, status) && !TakesPlace(n, status)
    ensures Remaining(InsertAll(cfg, w, s), status, room) == InsertAll(cfg, Remaining(w, status, room), s)
    ensures Entering(InsertAll(cfg, w, s), status, room) == Entering(w, status, room)
    decreases |s|
  {
    if s != [] {
      assert s[0] in s;
      RemainingInsert(cfg, base, w, s[0], status, room);
      InsertKeepsOrder(cfg, base, w, s[0]);
      RemainingInsertAll(cfg, base, InsertSorted(cfg, w, s[0]), s[1..], status, room);
    }
  }

  // ---------- the third loop ----------

  lemma ReversedSnoc(s: seq<Note>, n: Note)
    ensures Reversed(s + [n]) == [n] + Reversed(s)
  {
    if s == [] {
      assert s + [n] == [n] && [n][1..] == [];
    } else {
      assert (s + [n])[1..] == s[1..] + [n];
      ReversedSnoc(s[1..], n);
    }
  }

  lemma LastOff(s: seq<Note>, limit: nat)
    requires limit < |s|
    ensures var rest := s[..|s| - 1];
            && RemoveAt(s, |s| - 1) == rest && rest[..limit] == s[..limit]
            && s[limit..] == rest[limit..] + [s[|s| - 1]]
  {
  }

  lemma {:induction false} TrimSplits(cfg: Settings, limit: int, q: Queues)
    requires 0 <= limit <= |q.displayed|
    ensures var r := Trim(cfg, limit, q);
            && r.displayed == q.displayed[..limit]
            && r.waiting == InsertAll(cfg, q.waiting, Reversed(q.displayed[limit..]))
    decreases |q.displayed|
  {
    if |q.displayed| > limit {
      var last := |q.displayed| - 1;
      var n, t := q.displayed[last], ToWaiting(cfg, q, last);
      LastOff(q.displayed, limit);
      TrimSplits(cfg, limit, t);
      ReversedSnoc(t.displayed[limit..], n);
      InsertAllCons(cfg, q.waiting, n, Reversed(t.displayed[limit..]));
    } else {
      assert q.displayed[limit..] == [];
    }
  }

  // ---------- the three loops together ----------

  lemma LookAlike(s: seq<Note>, status: Status, clock: nat -> int)
    ensures Alike(s, Look(s, status, clock))
  {
  }

  lemma {:induction false} ReturningMembers(s: seq<Note>, status: Status, time: int)
    ensures forall n | n in Returning(s, status, time) :: n in s
  {
    if s != [] { ReturningMembers(s[1..], status, time); }
  }

  lemma ReturnedInWindow(cfg: Settings, base: int, s: seq<Note>, status: Status, time: int, clock: nat -> int)
    requires AllInWindow(cfg, base, s)
    ensures AllInWindow(cfg, base, Look(Returning(s, status, time), status, clock))
  {
    var back := Returning(s, status, time);
    ReturningMembers(s, status, time);
    forall n | n in Look(back, status, clock) ensures InWindow(cfg, base, n) {
      var i :| 0 <= i < |back| && Look(back, status, clock)[i] == n;
      assert back[i] in back;
    }
  }

  lemma {:induction false} EnteringFits(w: seq<Note>, status: Status, room: int)
    ensures |Entering(w, status, room)| <= if room <= 0 then 0 else room
  {
    if w != [] && room > 0 {
      EnteringFits(w[1..], status, room);
      EnteringFits(w[1..], status, room - 1);
    }
  }

  /** What the first loop leaves, and the limit it leads to. */
  lemma SweptLine(cfg: Settings, status: Status, time: int, clock: nat -> int, q: Queues, s: Queues)
    requires Once(Id, q) && s == AfterSweep(cfg, status, time, clock, q)
    ensures s.displayed == Look(Shown(q.displayed, status, time), status, clock)
    ensures s.waiting == InsertAll(cfg, q.waiting, Look(Returning(q.displayed, status, time), status, clock))
    ensures Limit(cfg, s) == Places(cfg, status, time, q) && Once(Id, s)
  {
    SweepSplits(cfg, status, time, clock, q, 0);
    assert q.displayed[0..] == q.displayed;
    RoomIsLeft(cfg, status, time, clock, q);
    SweepThins(cfg, status, time, clock, q, 0);
    OnceShrinks(Id, q, s);
  }

  lemma FilledWaits(cfg: Settings, base: int, status: Status, time: int, clock: nat -> int, q: Queues, s: Queues,
                    room: int, p: Queues)
    requires Ordered(cfg, base, true, q)
    requires s.waiting == InsertAll(cfg, q.waiting, Look(Returning(q.displayed, status, time), status, clock))
    requires p.waiting == Remaining(s.waiting, status, room)
    ensures Alike(p.waiting, InsertAll(cfg, Remaining(q.waiting, status, room), Returning(q.displayed, status, time)))
    ensures Entering(s.waiting, status, room) == Entering(q.waiting, status, room)
  {
    var back := Returning(q.displayed, status, time);
    ReturnedInWindow(cfg, base, q.displayed, status, time, clock);
    ReturnedIsHeldBack(q.displayed, status, time, clock);
    RemainingInsertAll(cfg, base, q.waiting, Look(back, status, clock), status, room);
    LookAlike(back, status, clock);
    WaitAlike(cfg, Remaining(q.waiting, status, room), back, Look(back, status, clock));
  }

  lemma FilledShows(cfg: Settings, status: Status, clock: nat -> int, shown: seq<Note>, entering: seq<Note>,
                    d: seq<Note>)
    requires Joins(cfg, Look(shown, status, clock), entering, d)
    ensures |d| == |shown + entering| && forall x :: AtMost(cfg, d, x) == AtMost(cfg, shown + entering, x)
  {
    LookAlike(shown, status, clock);
    forall x ensures AtMost(cfg, d, x) == AtMost(cfg, shown + entering, x) {
      AtMostAlike(cfg, shown, Look(shown, status, clock), x);
      AtMostConcat(cfg, shown, entering, x);
    }
  }

  /** With places left, the second loop fills them. */
  lemma FilledLine(cfg: Settings, base: int, status: Status, time: int, clock: nat -> int, q: Queues, s: Queues,
                   p: Queues)
    requires Ordered(cfg, base, true, q) && Room(cfg, status, time, q) >= 0
    requires s.displayed == Look(Shown(q.displayed, status, time), status, clock)
    requires s.waiting == InsertAll(cfg, q.waiting, Look(Returning(q.displayed, status, time), status, clock))
    requires Promotes(cfg, status, Places(cfg, status, time, q), s, 0, p)
    ensures SameLine(cfg, p, LineUp(cfg, status, time, q)) && |p.displayed| <= Places(cfg, status, time, q)
  {
    var room := Room(cfg, status, time, q);
    assert s.waiting[0..] == s.waiting && s.waiting[..0] == [];
    FilledWaits(cfg, base, status, time, clock, q, s, room, p);
    EnteringFits(q.waiting, status, room);
    FilledShows(cfg, status, clock, Shown(q.displayed, status, time), Entering(q.waiting, status, room), p.displayed);
  }

  lemma WaitAlike(cfg: Settings, w: seq<Note>, s: seq<Note>, t: seq<Note>)
    requires Alike(s, t)
    ensures Alike(InsertAll(cfg, w, t), InsertAll(cfg, w, s))
  {
    forall i | 0 <= i < |w| ensures w[i] == w[i].(start := w[i].start) { }
    InsertAllAlike(cfg, w, w, s, t);
    AlikeBack(InsertAll(cfg, w, s), InsertAll(cfg, w, t));
  }

  lemma AlikeBack(s: seq<Note>, t: seq<Note>)
    requires Alike(s, t)
    ensures Alike(t, s)
  {
    forall i | 0 <= i < |s| ensures s[i] == t[i].(start := s[i].start) { }
  }

  /** With too many shown, the third loop sends the last ones back. */
  lemma TrimmedLine(cfg: Settings, status: Status, time: int, clock: nat -> int, q: Queues, s: Queues)
    requires Room(cfg, status, time, q) < 0
    requires s.displayed == Look(Shown(q.displayed, status, time), status, clock)
    requires s.waiting == InsertAll(cfg, q.waiting, Look(Returning(q.displayed, status, time), status, clock))
    ensures SameLine(cfg, Trim(cfg, Places(cfg, status, time, q), s), LineUp(cfg, status, time, q))
  {
    var l, places := LineUp(cfg, status, time, q), Places(cfg, status, time, q);
    var shown, back := Shown(q.displayed, status, time), Returning(q.displayed, status, time);
    var t := Trim(cfg, places, s);
    TrimSplits(cfg, places, s);
    LookAlike(shown, status, clock);
    LookAlike(back, status, clock);
    WaitAlike(cfg, q.waiting, back, Look(back, status, clock));
    AlikeBack(shown[places..], s.displayed[places..]);
    ReversedAlike(s.displayed[places..], shown[places..]);
    InsertAllAlike(cfg, s.waiting, InsertAll(cfg, q.waiting, back), Reversed(s.displayed[places..]),
            Reversed(shown[places..]));
    forall x ensures AtMost(cfg, t.displayed, x) == AtMost(cfg, l.displayed, x) {
      AtMostAlike(cfg, shown[..places], s.displayed[..places], x);
    }
  }

  /** The first three loops line up as decided on the queues before. */
  lemma LineUpIsRight(cfg: Settings, base: int, status: Status, time: int, clock: nat -> int, q: Queues)
    requires Once(Id, q) && Ordered(cfg, base, true, q)
    ensures SameLine(cfg, AfterTrim(cfg, status, time, clock, q), LineUp(cfg, status, time, q))
  {
    var s, places := AfterSweep(cfg, status, time, clock, q), Places(cfg, status, time, q);
    var p := AfterPromote(cfg, status, time, clock, q);
    SweptLine(cfg, status, time, clock, q, s);
    if Room(cfg, status, time, q) >= 0 {
      PromotePromotes(cfg, status, time, places, s, 0);
      FilledLine(cfg, base, status, time, clock, q, s, p);
      TrimIsIdle(cfg, places, p);
    } else {
      TrimmedLine(cfg, status, time, clock, q, s);
    }
  }

  /** Exactly when an update gets the best onto the screen, on the queues before it: every
      notification that could be shown but is to wait behind a held-back one has enough
      notifications ranked no worse, on screen or in front of that one, to fill the screen. */
  lemma BestShownIff(cfg: Settings, base: int, status: Status, time: int, clock: nat -> int, q: Queues)
    requires Once(Id, q) && Comparable(cfg, base, q) && Sorted(cfg, q.displayed) && Sorted(cfg, q.waiting)
    requires cfg.sort != SortType.ById && forall k :: time <= clock(k)
    ensures NoneOutranked(cfg, status, Updated(cfg, status, time, clock, q))
            <==> HiddenCanWait(cfg, status, LineUp(cfg, status, time, q))
  {
    TrimmedShownIff(cfg, base, status, time, clock, q);
    LineUpIsRight(cfg, base, status, time, clock, q);
    HiddenCanWaitAlike(cfg, status, AfterTrim(cfg, status, time, clock, q), LineUp(cfg, status, time, q));
  }
}
