/** The selection an update makes, stated against the queues it starts from: sort the
    survivors and take the first `limit`. */
module Selection {
  import opened Notifications
  import opened SortedQueue
  import opened QueueSpec
  import opened Update
  import opened Conservation
  import opened Distinct
  import opened Scheduling
  import opened Closing

  /** What identifies a notification and what orders it. */
  datatype Tag = Tag(key: int, rank: int)

  ghost function TagOf(cfg: Settings, n: Note): Tag {
    Tag(n.key, Rank(cfg, n))
  }

  ghost function Tags(cfg: Settings, s: seq<Note>): (r: seq<Tag>)
    ensures |r| == |s| && forall i | 0 <= i < |s| :: r[i] == TagOf(cfg, s[i])
  {
    seq(|s|, i requires 0 <= i < |s| => TagOf(cfg, s[i]))
  }

  ghost predicate DistinctTags(s: seq<Tag>) {
    forall i, j | 0 <= i < j < |s| :: s[i].key != s[j].key
  }

  ghost predicate Ascending(s: seq<Tag>) {
    forall i, j | 0 <= i < j < |s| :: s[i].rank <= s[j].rank
  }

  ghost function RankCount(x: int, s: seq<Tag>): nat {
    if s == [] then 0 else (if s[0].rank == x then 1 else 0) + RankCount(x, s[1..])
  }

  lemma {:induction false} RankCountConcat(x: int, s: seq<Tag>, t: seq<Tag>)
    ensures RankCount(x, s + t) == RankCount(x, s) + RankCount(x, t)
  {
    if s == [] {
      assert s + t == t;
    } else {
      assert (s + t)[1..] == s[1..] + t;
      RankCountConcat(x, s[1..], t);
    }
  }

  lemma RankCountSplit(x: int, s: seq<Tag>, i: nat)
    requires i < |s|
    ensures RankCount(x, s) == RankCount(x, RemoveAt(s, i)) + (if s[i].rank == x then 1 else 0)
  {
    assert s == s[..i] + ([s[i]] + s[i + 1..]);
    RankCountConcat(x, s[..i], [s[i]] + s[i + 1..]);
    RankCountConcat(x, s[..i], s[i + 1..]);
  }

  lemma RankCountInsert(cfg: Settings, x: int, s: seq<Note>, n: Note)
    ensures RankCount(x, Tags(cfg, InsertSorted(cfg, s, n)))
            == RankCount(x, Tags(cfg, s)) + (if Rank(cfg, n) == x then 1 else 0)
  {
    var i := InsertSplits(cfg, s, n);
    var r := Tags(cfg, InsertSorted(cfg, s, n));
    RankCountSplit(x, r, i);
    assert RemoveAt(r, i) == Tags(cfg, s);
  }

  lemma {:induction false} RankCountSort(cfg: Settings, x: int, s: seq<Note>)
    ensures RankCount(x, Tags(cfg, StableSort(cfg, s))) == RankCount(x, Tags(cfg, s))
  {
    if s != [] {
      RankCountSort(cfg, x, s[1..]);
      RankCountInsert(cfg, x, StableSort(cfg, s[1..]), s[0]);
      assert Tags(cfg, s)[1..] == Tags(cfg, s[1..]);
    }
  }

  /** Two lists of distinct tags with the same members hold the same ranks. */
  lemma {:induction false} MatchedCounts(s: seq<Tag>, t: seq<Tag>)
    requires DistinctTags(s) && DistinctTags(t) && forall e :: e in s <==> e in t
    ensures |s| == |t| && forall x :: RankCount(x, s) == RankCount(x, t)
  {
    assert |t| > 0 ==> t[0] in t;
    if s != [] {
      assert s[0] in t;
      var j :| 0 <= j < |t| && t[j] == s[0];
      var s', t' := s[1..], RemoveAt(t, j);
      forall e ensures e in s' <==> e in t' {
        DropMember(s, 0, e);
        DropMember(t, j, e);
        assert RemoveAt(s, 0) == s';
      }
      MatchedCounts(s', t');
      forall x ensures RankCount(x, s) == RankCount(x, t) {
        RankCountSplit(x, t, j);
      }
    }
  }

  lemma DropMember(s: seq<Tag>, i: nat, e: Tag)
    requires i < |s| && DistinctTags(s)
    ensures e in RemoveAt(s, i) <==> e in s && e != s[i]
  {
    if e in s && e != s[i] {
      var k :| 0 <= k < |s| && s[k] == e;
      assert k < i ==> RemoveAt(s, i)[k] == e;
      assert k > i ==> RemoveAt(s, i)[k - 1] == e;
    }
  }

  lemma {:induction false} RankCountPositive(x: int, s: seq<Tag>)
    ensures RankCount(x, s) > 0 <==> exists e :: e in s && e.rank == x
  {
    if s != [] {
      RankCountPositive(x, s[1..]);
      assert forall e :: e in s <==> e == s[0] || e in s[1..];
    }
  }

  /** A sorted list is determined by how often each rank occurs. */
  lemma {:induction false} SortedByCounts(s: seq<Tag>, t: seq<Tag>)
    requires Ascending(s) && Ascending(t)
    requires |s| == |t| && forall x :: RankCount(x, s) == RankCount(x, t)
    ensures forall i | 0 <= i < |s| :: s[i].rank == t[i].rank
  {
    if s != [] {
      RankCountPositive(s[0].rank, s);
      RankCountPositive(s[0].rank, t);
      RankCountPositive(t[0].rank, t);
      RankCountPositive(t[0].rank, s);
      assert s[0] in s && t[0] in t;
      forall x ensures RankCount(x, s[1..]) == RankCount(x, t[1..]) {
        assert RankCount(x, s) == RankCount(x, t);
      }
      SortedByCounts(s[1..], t[1..]);
      forall i | 0 <= i < |s| ensures s[i].rank == t[i].rank {
        if i > 0 { assert s[1..][i - 1].rank == t[1..][i - 1].rank; }
      }
    }
  }

  // ---------- the survivors are distinct ----------

  lemma {:induction false} StayingDistinct(s: seq<Note>, status: Status, time: int)
    requires DistinctKeys(s)
    ensures DistinctKeys(Staying(s, status, time))
  {
    if s != [] {
      var rest := Staying(s[1..], status, time);
      TailDistinct(s);
      StayingDistinct(s[1..], status, time);
      StayingMembers(s[1..], status, time);
      forall i | 0 <= i < |rest| ensures rest[i].key != s[0].key {
        assert rest[i] in rest;
      }
    }
  }

  lemma TailDistinct(s: seq<Note>)
    requires s != [] && DistinctKeys(s)
    ensures DistinctKeys(s[1..]) && forall n | n in s[1..] :: n.key != s[0].key
  {
    forall i, j | 0 <= i < j < |s[1..]| ensures s[1..][i].key != s[1..][j].key {
      assert s[i + 1].key != s[j + 1].key;
    }
  }

  lemma {:induction false} StayingFromDistinct(w: seq<Note>, j: nat, status: Status, room: int)
    requires j <= |w| && DistinctKeys(w)
    ensures DistinctKeys(StayingFrom(w, j, status, room))
    decreases |w| - j
  {
    if j < |w| {
      var rest := StayingFrom(w, j + 1, status, room);
      StayingFromDistinct(w, j + 1, status, room);
      StayingFromMembers(w, j + 1, status, room);
      forall i | 0 <= i < |rest| ensures rest[i].key != w[j].key {
        assert rest[i] in rest;
      }
    }
  }

  lemma ApartDistinct(s: seq<Note>, t: seq<Note>)
    requires DistinctKeys(s) && DistinctKeys(t) && forall a, b | a in s && b in t :: a.key != b.key
    ensures DistinctKeys(s + t)
  {
    forall i, j | 0 <= i < j < |s + t| ensures (s + t)[i].key != (s + t)[j].key {
      if i < |s| <= j { assert s[i] in s && t[j - |s|] in t; }
    }
  }

  lemma SurvivorsDistinct(cfg: Settings, status: Status, time: int, q: Queues)
    requires Once(Key, q)
    ensures var s := Survivors(cfg, status, time, q);
            DistinctKeys(s) && forall n | n in s :: n in q.displayed + q.waiting
  {
    var room := Room(cfg, status, time, q);
    LiveKeysApart(q);
    StayingMembers(q.displayed, status, time);
    StayingFromMembers(q.waiting, 0, status, room);
    StayingDistinct(q.displayed, status, time);
    StayingFromDistinct(q.waiting, 0, status, room);
    ApartDistinct(Staying(q.displayed, status, time), StayingFrom(q.waiting, 0, status, room));
  }

  lemma KeyIdentifies(s: seq<Note>, m: Note, n: Note)
    requires DistinctKeys(s) && m in s && n in s && m.key == n.key
    ensures m == n
  {
    var i :| 0 <= i < |s| && s[i] == m;
    var j :| 0 <= j < |s| && s[j] == n;
  }

  lemma TagMember(cfg: Settings, s: seq<Note>, e: Tag) returns (n: Note)
    requires e in Tags(cfg, s)
    ensures n in s && TagOf(cfg, n) == e
  {
    var i :| 0 <= i < |s| && Tags(cfg, s)[i] == e;
    n := s[i];
  }

  lemma TagOfMember(cfg: Settings, s: seq<Note>, n: Note)
    requires n in s
    ensures TagOf(cfg, n) in Tags(cfg, s)
  {
    var i :| 0 <= i < |s| && s[i] == n;
    assert Tags(cfg, s)[i] == TagOf(cfg, n);
  }

  /** The live notification before the update that `n` was. */
  lemma FormerSelf(cfg: Settings, q: Queues, n: Note) returns (m: Note)
    requires CameFrom(q, n)
    ensures m in q.displayed + q.waiting && m.key == n.key && TagOf(cfg, m) == TagOf(cfg, n)
    ensures n == m.(start := n.start)
  {
    m :| (m in q.displayed || m in q.waiting) && n == m.(start := n.start);
  }

  /** Survivors before the update and live notifications after it have the same tags. */
  lemma SurvivorsMatch(cfg: Settings, q: Queues, r: Queues, s: seq<Note>, e: Tag)
    requires OnlyRestarts(q, r) && DistinctKeys(q.displayed + q.waiting)
    requires forall n | n in s :: n in q.displayed + q.waiting
    requires forall key :: LiveKey(r, key) <==> HasKey(s, key)
    ensures e in Tags(cfg, s) <==> e in Tags(cfg, r.displayed + r.waiting)
  {
    var before, t := q.displayed + q.waiting, r.displayed + r.waiting;
    if e in Tags(cfg, t) {
      var n := TagMember(cfg, t, e);
      var m := FormerSelf(cfg, q, n);
      assert LiveKey(r, n.key);
      var l :| l in s && l.key == n.key;
      KeyIdentifies(before, l, m);
      TagOfMember(cfg, s, m);
    }
    if e in Tags(cfg, s) {
      var m := TagMember(cfg, s, e);
      assert HasKey(s, m.key);
      var n :| (n in r.displayed || n in r.waiting) && n.key == m.key;
      var l := FormerSelf(cfg, q, n);
      KeyIdentifies(before, l, m);
      TagOfMember(cfg, t, n);
    }
  }

  lemma SortedTags(cfg: Settings, s: seq<Note>)
    requires Sorted(cfg, s)
    ensures Ascending(Tags(cfg, s))
  {
  }

  lemma SameTagsSameRanks(cfg: Settings, base: int, s: seq<Note>, t: seq<Note>)
    requires DistinctKeys(s) && DistinctKeys(t) && AllInWindow(cfg, base, s) && Sorted(cfg, t)
    requires forall e :: e in Tags(cfg, s) <==> e in Tags(cfg, t)
    ensures var best := StableSort(cfg, s);
            |best| == |t| && forall i | 0 <= i < |t| :: Rank(cfg, t[i]) == Rank(cfg, best[i])
  {
    MatchedCounts(Tags(cfg, s), Tags(cfg, t));
    SortSorts(cfg, base, s);
    var best := StableSort(cfg, s);
    forall x ensures RankCount(x, Tags(cfg, best)) == RankCount(x, Tags(cfg, t)) {
      RankCountSort(cfg, x, s);
    }
    SortedTags(cfg, best);
    SortedTags(cfg, t);
    SortedByCounts(Tags(cfg, best), Tags(cfg, t));
    forall i | 0 <= i < |t| ensures Rank(cfg, t[i]) == Rank(cfg, best[i]) {
      assert Tags(cfg, best)[i].rank == Tags(cfg, t)[i].rank;
    }
  }

  /** The survivors are counted before the update, and found after it. */
  lemma SurvivorsSortToLive(cfg: Settings, base: int, status: Status, time: int, clock: nat -> int, q: Queues)
    requires Once(Id, q) && Once(Key, q) && Comparable(cfg, base, q)
    requires var r := Updated(cfg, status, time, clock, q); Sorted(cfg, r.displayed + r.waiting)
    ensures var r, best := Updated(cfg, status, time, clock, q), StableSort(cfg, Survivors(cfg, status, time, q));
            var t := r.displayed + r.waiting;
            |best| == |t| && forall i | 0 <= i < |t| :: Rank(cfg, t[i]) == Rank(cfg, best[i])
  {
    var r, s := Updated(cfg, status, time, clock, q), Survivors(cfg, status, time, q);
    UpdateShrinks(cfg, status, time, clock, q);
    OnceShrinks(Key, q, r);
    OnceIsOnScreen(q);
    UpdateOnlyRestarts(cfg, status, time, clock, q);
    SurvivorsDistinct(cfg, status, time, q);
    LiveKeysDistinct(q);
    LiveKeysDistinct(r);
    forall key ensures LiveKey(r, key) <==> HasKey(s, key) {
      UpdateLeavesSurvivors(cfg, status, time, clock, q, key);
    }
    forall e ensures e in Tags(cfg, s) <==> e in Tags(cfg, r.displayed + r.waiting) {
      SurvivorsMatch(cfg, q, r, s, e);
    }
    SameTagsSameRanks(cfg, base, s, r.displayed + r.waiting);
  }

  /** Best-k selection. From sorted queues, in a sorting mode and with nothing held back at
      the end, an update shows exactly the first of the sorted survivors, as many as there are places,
      and the rest waits in that order. */
  lemma UpdateIsSortAndTake(cfg: Settings, base: int, status: Status, time: int, clock: nat -> int, q: Queues)
    requires Once(Id, q) && Once(Key, q)
    requires Comparable(cfg, base, q) && Sorted(cfg, q.displayed) && Sorted(cfg, q.waiting)
    requires cfg.sort != SortType.ById && forall k :: time <= clock(k)
    requires Unblocked(Updated(cfg, status, time, clock, q).waiting, status)
    ensures SortedAndTaken(cfg, status, time, q, Updated(cfg, status, time, clock, q))
  {
    var r := Updated(cfg, status, time, clock, q);
    UpdateTakesTheFirst(cfg, base, status, time, clock, q);
    RoomIsLeft(cfg, status, time, clock, q);
    SurvivorsSortToLive(cfg, base, status, time, clock, q);
    forall key ensures LiveKey(r, key) <==> HasKey(Survivors(cfg, status, time, q), key) {
      UpdateLeavesSurvivors(cfg, status, time, clock, q, key);
    }
  }

  /** `r` is what sorting the survivors of `q` and taking as many as there are places gives. */
  ghost predicate SortedAndTaken(cfg: Settings, status: Status, time: int, q: Queues, r: Queues) {
    var best, t := StableSort(cfg, Survivors(cfg, status, time, q)), r.displayed + r.waiting;
    var limit := Places(cfg, status, time, q);
    && (forall key :: LiveKey(r, key) <==> HasKey(Survivors(cfg, status, time, q), key))
    && |r.displayed| == (if |best| <= limit then |best| else limit)
    && |t| == |best| && (forall i | 0 <= i < |t| :: Rank(cfg, t[i]) == Rank(cfg, best[i]))
  }

  /** The same under a condition on the queues before: nothing that survives is held back by
      the pause level or by fullscreen. */
  lemma NothingHeldBackIsSortAndTake(cfg: Settings, base: int, status: Status, time: int, clock: nat -> int, q: Queues)
    requires Once(Id, q) && Once(Key, q)
    requires Comparable(cfg, base, q) && Sorted(cfg, q.displayed) && Sorted(cfg, q.waiting)
    requires cfg.sort != SortType.ById && forall k :: time <= clock(k)
    requires Unblocked(Survivors(cfg, status, time, q), status)
    ensures SortedAndTaken(cfg, status, time, q, Updated(cfg, status, time, clock, q))
  {
    var r, s := Updated(cfg, status, time, clock, q), Survivors(cfg, status, time, q);
    OnceIsOnScreen(q);
    UpdateOnlyRestarts(cfg, status, time, clock, q);
    SurvivorsDistinct(cfg, status, time, q);
    LiveKeysDistinct(q);
    forall n | n in r.waiting ensures IsReady(n, status, false) {
      var m := FormerSelf(cfg, q, n);
      UpdateLeavesSurvivors(cfg, status, time, clock, q, n.key);
      assert HasKey(r.waiting, n.key);
      var l :| l in s && l.key == n.key;
      KeyIdentifies(q.displayed + q.waiting, l, m);
    }
    UpdateIsSortAndTake(cfg, base, status, time, clock, q);
  }
}
