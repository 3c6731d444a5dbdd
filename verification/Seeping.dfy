/** Why the fourth loop of `queues_update` ends. Each turn exchanges the last displayed
    notification `d` and the head of waiting `w` when `d` compares below `w`; both are
    inserted again by the comparator. The loop ends for queues in any order and for any
    timestamps, although the comparator, narrowed to int, need not be transitive. */
module Seeping {
  import opened Notifications
  import opened SortedQueue

  // ---------- pairs in the wrong order ----------

  type Ranking = Note -> int

  /** How many notifications of `w` rank before `d`. */
  ghost function Below(rank: Ranking, w: seq<Note>, d: Note): nat {
    if w == [] then 0 else (if rank(d) > rank(w[0]) then 1 else 0) + Below(rank, w[1..], d)
  }

  /** How many pairs of a displayed and a waiting notification are in the wrong order. */
  ghost function Inversions(rank: Ranking, d: seq<Note>, w: seq<Note>): nat {
    if d == [] then 0 else Below(rank, w, d[0]) + Inversions(rank, d[1..], w)
  }

  lemma {:induction false} BelowInsert(cfg: Settings, rank: Ranking, w: seq<Note>, n: Note, d: Note)
    ensures Below(rank, InsertSorted(cfg, w, n), d) == Below(rank, [n] + w, d)
  {
    assert ([n] + w)[1..] == w;
    if w != [] && Cmp(cfg, w[0], n) < 0 {
      BelowInsert(cfg, rank, w[1..], n, d);
      assert ([n] + w[1..])[1..] == w[1..];
      assert ([w[0]] + InsertSorted(cfg, w[1..], n))[1..] == InsertSorted(cfg, w[1..], n);
    }
  }

  lemma {:induction false} InversionsInsert(cfg: Settings, rank: Ranking, d: seq<Note>, n: Note, w: seq<Note>)
    ensures Inversions(rank, InsertSorted(cfg, d, n), w) == Below(rank, w, n) + Inversions(rank, d, w)
  {
    if d == [] || Cmp(cfg, d[0], n) >= 0 {
      assert ([n] + d)[1..] == d;
    } else {
      InversionsInsert(cfg, rank, d[1..], n, w);
      assert ([d[0]] + InsertSorted(cfg, d[1..], n))[1..] == InsertSorted(cfg, d[1..], n);
    }
  }

  lemma {:induction false} InversionsLast(rank: Ranking, d: seq<Note>, w: seq<Note>)
    requires d != []
    ensures Inversions(rank, d, w) == Inversions(rank, d[..|d| - 1], w) + Below(rank, w, d[|d| - 1])
  {
    if |d| > 1 {
      InversionsLast(rank, d[1..], w);
      assert d[1..][..|d| - 2] == d[..|d| - 1][1..];
    } else {
      assert d[1..] == [];
    }
  }

  /** Trading the head of `w` against something ranked no better loses nobody a place. */
  lemma {:induction false} InversionsHead(cfg: Settings, rank: Ranking, d: seq<Note>, w: seq<Note>, n: Note)
    requires w != [] && rank(n) >= rank(w[0])
    ensures Inversions(rank, d, InsertSorted(cfg, w[1..], n)) <= Inversions(rank, d, w)
  {
    if d != [] {
      InversionsHead(cfg, rank, d[1..], w, n);
      BelowInsert(cfg, rank, w[1..], n, d[0]);
      assert ([n] + w[1..])[1..] == w[1..];
    }
  }

  lemma {:induction false} BelowMono(rank: Ranking, w: seq<Note>, lo: Note, hi: Note)
    requires rank(lo) <= rank(hi)
    ensures Below(rank, w, lo) <= Below(rank, w, hi)
  {
    if w != [] { BelowMono(rank, w[1..], lo, hi); }
  }

  lemma BelowSwaps(cfg: Settings, rank: Ranking, w: seq<Note>, d: Note, up: Note)
    requires w != [] && rank(up) == rank(w[0]) <= rank(d)
    ensures var before, after := Below(rank, w, d), Below(rank, InsertSorted(cfg, w[1..], d), up);
            if rank(up) < rank(d) then after < before else after <= before
  {
    BelowInsert(cfg, rank, w[1..], d, up);
    assert ([d] + w[1..])[1..] == w[1..];
    BelowMono(rank, w[1..], up, d);
  }

  /** The queues after one exchange. */
  function NewDisplayed(cfg: Settings, d: seq<Note>, up: Note): seq<Note>
    requires d != []
  {
    InsertSorted(cfg, d[..|d| - 1], up)
  }

  function NewWaiting(cfg: Settings, d: seq<Note>, w: seq<Note>): seq<Note>
    requires d != [] && w != []
  {
    InsertSorted(cfg, w[1..], d[|d| - 1])
  }

  /** Under any ranking that puts `d` no better than `w`, an exchange adds no wrong pair, and
      takes some away when `d` ranks worse. */
  lemma ExchangeInversions(cfg: Settings, rank: Ranking, d: seq<Note>, w: seq<Note>, up: Note)
    requires d != [] && w != [] && rank(up) == rank(w[0]) <= rank(d[|d| - 1])
    ensures var before := Inversions(rank, d, w);
            var after := Inversions(rank, NewDisplayed(cfg, d, up), NewWaiting(cfg, d, w));
            if rank(up) < rank(d[|d| - 1]) then after < before else after <= before
  {
    var last := |d| - 1;
    InversionsInsert(cfg, rank, d[..last], up, NewWaiting(cfg, d, w));
    InversionsLast(rank, d, w);
    InversionsHead(cfg, rank, d[..last], w, d[last]);
    BelowSwaps(cfg, rank, w, d[last], up);
  }

  // ---------- neighbours in the wrong order ----------

  ghost function Wrong(cfg: Settings, a: Note, b: Note): nat {
    if Cmp(cfg, a, b) > 0 then 1 else 0
  }

  /** Neighbours of which the first compares below the second. */
  ghost function Descents(cfg: Settings, s: seq<Note>): nat {
    if |s| < 2 then 0 else Wrong(cfg, s[0], s[1]) + Descents(cfg, s[1..])
  }

  lemma {:induction false} DescentsLast(cfg: Settings, s: seq<Note>)
    requires |s| >= 2
    ensures Descents(cfg, s) == Descents(cfg, s[..|s| - 1]) + Wrong(cfg, s[|s| - 2], s[|s| - 1])
  {
    if |s| > 2 {
      DescentsLast(cfg, s[1..]);
      assert s[1..][..|s| - 2] == s[..|s| - 1][1..];
    } else {
      assert s[1..] == [s[1]] && s[..1] == [s[0]];
    }
  }

  /** Whatever the queue, an insertion adds no neighbours in the wrong order. */
  lemma {:induction false} DescentsInsert(cfg: Settings, s: seq<Note>, n: Note)
    ensures Descents(cfg, InsertSorted(cfg, s, n)) <= Descents(cfg, s)
  {
    if s == [] {
    } else if Cmp(cfg, s[0], n) >= 0 {
      BelowIsAbove(cfg, n, s[0]);
      assert ([n] + s)[1..] == s;
    } else {
      DescentsInsert(cfg, s[1..], n);
      var r := InsertSorted(cfg, s[1..], n);
      assert ([s[0]] + r)[1..] == r;
      InsertHead(cfg, s[1..], n);
    }
  }

  lemma InsertHead(cfg: Settings, s: seq<Note>, n: Note)
    ensures InsertSorted(cfg, s, n)[0] == if s == [] || Cmp(cfg, s[0], n) >= 0 then n else s[0]
  {
  }

  lemma {:induction false} InsertLast(cfg: Settings, s: seq<Note>, n: Note)
    ensures var r := InsertSorted(cfg, s, n);
            r[|s|] == n || (s != [] && r[|s|] == s[|s| - 1])
  {
    if s != [] && Cmp(cfg, s[0], n) < 0 { InsertLast(cfg, s[1..], n); }
  }

  // ---------- the comparator ----------

  /** Nothing is both above and below. */
  lemma BelowIsAbove(cfg: Settings, a: Note, b: Note)
    ensures Cmp(cfg, a, b) > 0 ==> Cmp(cfg, b, a) < 0
  {
  }

  /** The part of the order that is one in any case. */
  function UrgencyRank(cfg: Settings, n: Note): int {
    match cfg.sort
    case UrgencyAscending => n.urgency
    case UrgencyDescending => -(n.urgency as int)
    case _ => 0
  }

  lemma UrgencyDecides(cfg: Settings, a: Note, b: Note)
    ensures UrgencyRank(cfg, a) < UrgencyRank(cfg, b) ==> Cmp(cfg, a, b) < 0
    ensures UrgencyRank(cfg, a) > UrgencyRank(cfg, b) ==> Cmp(cfg, a, b) > 0
  {
  }

  /** On the circle of 2^32 values: from the far side of a point, nothing above it is above. */
  lemma FarSide(v: int, u: int)
    requires ToInt32(v) <= 0 && ToInt32(-v) < 0 && ToInt32(u) < 0
    ensures ToInt32(v - u) <= 0
  {
    var k, m := v / TWO_32, u / TWO_32;
    var a, b := v % TWO_32, u % TWO_32;
    assert v == k * TWO_32 + a && u == m * TWO_32 + b;
    Residue(-v, -k - 1, TWO_32 - a);
    assert a == TWO_31;
    if b == TWO_31 {
      Residue(v - u, k - m, 0);
    } else {
      Residue(v - u, k - m - 1, a - b + TWO_32);
    }
  }

  lemma Residue(x: int, k: int, r: int)
    requires x == k * TWO_32 + r
    ensures 0 <= r < TWO_32 ==> x % TWO_32 == r
    ensures r == TWO_32 ==> x % TWO_32 == 0
  {
  }

  /** What replaces transitivity: when `x` and `d` are exactly opposite, each comparing above
      the other, nothing of their urgency that compares above `d` compares above `x` too. */
  lemma Opposites(cfg: Settings, x: Note, d: Note, e: Note)
    requires UrgencyRank(cfg, x) == UrgencyRank(cfg, d) == UrgencyRank(cfg, e)
    requires Cmp(cfg, x, d) <= 0 && Cmp(cfg, d, x) < 0 && Cmp(cfg, e, d) < 0
    ensures Cmp(cfg, x, e) <= 0
  {
    Difference(cfg, x, d);
    Difference(cfg, d, x);
    Difference(cfg, e, d);
    Difference(cfg, x, e);
    FarSide(Value(cfg, x) - Value(cfg, d), Value(cfg, e) - Value(cfg, d));
  }

  /** The number that is compared within one urgency. */
  function Value(cfg: Settings, n: Note): int {
    if cfg.sort != ByUpdate then n.id else if cfg.originBottom then n.timestamp else -n.timestamp
  }

  lemma Difference(cfg: Settings, a: Note, b: Note)
    requires UrgencyRank(cfg, a) == UrgencyRank(cfg, b)
    ensures Cmp(cfg, a, b) == ToInt32(Value(cfg, a) - Value(cfg, b))
  {
  }

  // ---------- the measure ----------

  /** Where an insertion goes. */
  ghost function PlaceOf(cfg: Settings, s: seq<Note>, n: Note): (i: nat)
    ensures i <= |s|
  {
    if s == [] || Cmp(cfg, s[0], n) >= 0 then 0 else 1 + PlaceOf(cfg, s[1..], n)
  }

  /** Something that does not compare above what was inserted goes no further down. */
  lemma {:induction false} PlaceStops(cfg: Settings, s: seq<Note>, d: Note, x: Note)
    requires Cmp(cfg, d, x) >= 0
    ensures PlaceOf(cfg, InsertSorted(cfg, s, d), x) <= PlaceOf(cfg, s, d)
  {
    if s != [] && Cmp(cfg, s[0], d) < 0 {
      PlaceStops(cfg, s[1..], d, x);
      assert ([s[0]] + InsertSorted(cfg, s[1..], d))[1..] == InsertSorted(cfg, s[1..], d);
    }
  }

  ghost function UrgencyInversions(cfg: Settings, d: seq<Note>, w: seq<Note>): nat {
    Inversions(n => UrgencyRank(cfg, n), d, w)
  }

  /** Neighbours in the wrong order within each queue and where they meet. */
  ghost function AllDescents(cfg: Settings, d: seq<Note>, w: seq<Note>): nat {
    if d == [] || w == [] then 0
    else Descents(cfg, d) + Wrong(cfg, d[|d| - 1], w[0]) + Descents(cfg, w)
  }

  /** How far down the last displayed notification would go, unless urgency settles it. */
  ghost function Depth(cfg: Settings, d: seq<Note>, w: seq<Note>): nat {
    if d == [] || w == [] then 0
    else if UrgencyRank(cfg, d[|d| - 1]) > UrgencyRank(cfg, w[0]) then 0
    else 1 + PlaceOf(cfg, w[1..], d[|d| - 1])
  }

  lemma SameKeyCompares(cfg: Settings, a: Note, b: Note, c: Note)
    requires SameSortKey(a, b)
    ensures Cmp(cfg, a, c) == Cmp(cfg, b, c) && Cmp(cfg, c, a) == Cmp(cfg, c, b)
    ensures UrgencyRank(cfg, a) == UrgencyRank(cfg, b)
  {
  }

  lemma DescentsTail(cfg: Settings, w: seq<Note>)
    requires w != []
    ensures Descents(cfg, w) == Descents(cfg, w[1..]) + if |w| > 1 then Wrong(cfg, w[0], w[1]) else 0
  {
  }

  /** One exchange never adds neighbours in the wrong order. It takes some away, except when
      the next two to be compared are old neighbours of the two exchanged. */
  lemma ExchangeDescents(cfg: Settings, d: seq<Note>, w: seq<Note>, up: Note)
    requires d != [] && w != [] && SameSortKey(w[0], up) && Cmp(cfg, d[|d| - 1], w[0]) > 0
    ensures var d', w' := NewDisplayed(cfg, d, up), NewWaiting(cfg, d, w);
            var last := |d| - 1;
            || AllDescents(cfg, d', w') < AllDescents(cfg, d, w)
            || (&& AllDescents(cfg, d', w') == AllDescents(cfg, d, w)
                && |d| > 1 && |w| > 1
                && d'[last] == d[last - 1] && w'[0] == w[1]
                && Cmp(cfg, w[1], d[last]) < 0 && Cmp(cfg, d[last - 1], w[1]) > 0
                && Cmp(cfg, d[last - 1], d[last]) <= 0)
  {
    var last := |d| - 1;
    var d', w' := NewDisplayed(cfg, d, up), NewWaiting(cfg, d, w);
    DescentsInsert(cfg, d[..last], up);
    DescentsInsert(cfg, w[1..], d[last]);
    InsertLast(cfg, d[..last], up);
    InsertHead(cfg, w[1..], d[last]);
    DescentsTail(cfg, w);
    if |d| > 1 { DescentsLast(cfg, d); }
    SameKeyCompares(cfg, w[0], up, w'[0]);
    BelowIsAbove(cfg, d[last], w[0]);
  }

  lemma DepthDecreases(cfg: Settings, d: seq<Note>, w: seq<Note>, up: Note)
    requires |d| > 1 && |w| > 1 && SameSortKey(w[0], up)
    requires UrgencyRank(cfg, d[|d| - 1]) == UrgencyRank(cfg, w[0])
    requires var d', w', last := NewDisplayed(cfg, d, up), NewWaiting(cfg, d, w), |d| - 1;
             && d'[last] == d[last - 1] && w'[0] == w[1]
             && Cmp(cfg, w[1], d[last]) < 0 && Cmp(cfg, d[last - 1], w[1]) > 0
             && Cmp(cfg, d[last - 1], d[last]) <= 0
    ensures Depth(cfg, NewDisplayed(cfg, d, up), NewWaiting(cfg, d, w)) < Depth(cfg, d, w)
  {
    var last := |d| - 1;
    var x, y, e := d[last - 1], d[last], w[1];
    var w' := NewWaiting(cfg, d, w);
    assert w[1..][1..] == w[2..];
    assert w' == [e] + InsertSorted(cfg, w[2..], y) && w'[1..] == InsertSorted(cfg, w[2..], y);
    assert Depth(cfg, d, w) == 2 + PlaceOf(cfg, w[2..], y);
    UrgencyDecides(cfg, e, y);
    UrgencyDecides(cfg, x, y);
    UrgencyDecides(cfg, x, e);
    if UrgencyRank(cfg, x) <= UrgencyRank(cfg, e) {
      if Cmp(cfg, y, x) < 0 {
        UrgencyDecides(cfg, y, x);
        Opposites(cfg, x, y, e);
      }
      PlaceStops(cfg, w[2..], y, x);
    }
  }

  ghost predicate Smaller(u': nat, n': nat, p': nat, u: nat, n: nat, p: nat) {
    u' < u || (u' == u && (n' < n || (n' == n && p' < p)))
  }

  /** Every exchange makes the measure smaller. */
  lemma ExchangeDecreases(cfg: Settings, d: seq<Note>, w: seq<Note>, up: Note)
    requires d != [] && w != [] && SameSortKey(w[0], up) && Cmp(cfg, d[|d| - 1], w[0]) > 0
    ensures var d', w' := NewDisplayed(cfg, d, up), NewWaiting(cfg, d, w);
            Smaller(UrgencyInversions(cfg, d', w'), AllDescents(cfg, d', w'), Depth(cfg, d', w'),
                    UrgencyInversions(cfg, d, w), AllDescents(cfg, d, w), Depth(cfg, d, w))
  {
    var y := d[|d| - 1];
    var d', w' := NewDisplayed(cfg, d, up), NewWaiting(cfg, d, w);
    UrgencyDecides(cfg, y, w[0]);
    ExchangeInversions(cfg, n => UrgencyRank(cfg, n), d, w, up);
    if UrgencyRank(cfg, y) == UrgencyRank(cfg, w[0]) {
      ExchangeDescents(cfg, d, w, up);
      if AllDescents(cfg, d', w') == AllDescents(cfg, d, w) {
        DepthDecreases(cfg, d, w, up);
      }
    }
  }
}
