/** GLib queue operations on notifications: sorted insertion, deletion of a link, lookup
    by id, and what they do to order and contents. */
module SortedQueue {
  import opened Notifications

  /** `g_queue_insert_sorted`: in front of the first element that does not compare below `n`. */
  function InsertSorted(cfg: Settings, s: seq<Note>, n: Note): (r: seq<Note>)
    ensures |r| == |s| + 1
  {
    if s == [] || Cmp(cfg, s[0], n) >= 0 then [n] + s
    else [s[0]] + InsertSorted(cfg, s[1..], n)
  }

  /** `g_queue_sort`, a stable sort. */
  function StableSort(cfg: Settings, s: seq<Note>): (r: seq<Note>)
    ensures |r| == |s|
  {
    if s == [] then [] else InsertSorted(cfg, StableSort(cfg, s[1..]), s[0])
  }

  /** `g_queue_delete_link` of the link at position `i`. */
  function RemoveAt<T>(s: seq<T>, i: nat): (r: seq<T>)
    requires i < |s|
    ensures |r| == |s| - 1
  {
    s[..i] + s[i + 1..]
  }

  /** Position of the first notification with the id, or the length when there is none. */
  function IndexOfId(s: seq<Note>, id: int): (i: nat)
    ensures i <= |s|
    ensures i < |s| ==> s[i].id == id
    ensures forall j | 0 <= j < i :: s[j].id != id
  {
    if s == [] || s[0].id == id then 0 else 1 + IndexOfId(s[1..], id)
  }

  // ---------- contents ----------

  /** The two labels a notification keeps while it moves: its identity and its id. */
  datatype Label = Key | Id

  function LabelOf(p: Label, n: Note): int {
    match p
    case Key => n.key
    case Id => n.id
  }

  /** How often a label occurs in a queue. */
  ghost function Count(p: Label, x: int, s: seq<Note>): nat {
    if s == [] then 0 else One(p, x, s[0]) + Count(p, x, s[1..])
  }

  ghost function One(p: Label, x: int, n: Note): nat {
    if LabelOf(p, n) == x then 1 else 0
  }

  lemma {:induction false} CountConcat(p: Label, x: int, s: seq<Note>, t: seq<Note>)
    ensures Count(p, x, s + t) == Count(p, x, s) + Count(p, x, t)
  {
    if s == [] {
      assert s + t == t;
    } else {
      assert (s + t)[1..] == s[1..] + t;
      CountConcat(p, x, s[1..], t);
    }
  }

  lemma CountSnoc(p: Label, x: int, s: seq<Note>, n: Note)
    ensures Count(p, x, s + [n]) == Count(p, x, s) + One(p, x, n)
  {
    CountConcat(p, x, s, [n]);
    assert [n][1..] == [];
  }

  lemma CountSplit(p: Label, x: int, s: seq<Note>, i: nat)
    requires i < |s|
    ensures Count(p, x, s) == Count(p, x, RemoveAt(s, i)) + One(p, x, s[i])
  {
    assert s == s[..i] + ([s[i]] + s[i + 1..]);
    CountConcat(p, x, s[..i], [s[i]] + s[i + 1..]);
    CountConcat(p, x, s[..i], s[i + 1..]);
  }

  lemma CountUpdate(p: Label, x: int, s: seq<Note>, i: nat, n: Note)
    requires i < |s| && LabelOf(p, n) == LabelOf(p, s[i])
    ensures Count(p, x, s[i := n]) == Count(p, x, s)
  {
    CountSplit(p, x, s, i);
    CountSplit(p, x, s[i := n], i);
    assert RemoveAt(s, i) == RemoveAt(s[i := n], i);
  }

  lemma {:induction false} CountInsert(p: Label, x: int, cfg: Settings, s: seq<Note>, n: Note)
    ensures Count(p, x, InsertSorted(cfg, s, n)) == Count(p, x, s) + One(p, x, n)
  {
    if s == [] || Cmp(cfg, s[0], n) >= 0 {
      assert ([n] + s)[1..] == s;
    } else {
      CountInsert(p, x, cfg, s[1..], n);
      assert ([s[0]] + InsertSorted(cfg, s[1..], n))[1..] == InsertSorted(cfg, s[1..], n);
    }
  }

  lemma {:induction false} CountSort(p: Label, x: int, cfg: Settings, s: seq<Note>)
    ensures Count(p, x, StableSort(cfg, s)) == Count(p, x, s)
  {
    if s != [] {
      CountSort(p, x, cfg, s[1..]);
      CountInsert(p, x, cfg, StableSort(cfg, s[1..]), s[0]);
    }
  }

  lemma {:induction false} CountAbsent(p: Label, x: int, s: seq<Note>)
    ensures Count(p, x, s) == 0 <==> forall n | n in s :: LabelOf(p, n) != x
  {
    if s != [] {
      CountAbsent(p, x, s[1..]);
      assert forall n :: n in s <==> n == s[0] || n in s[1..];
    }
  }

  /** Two positions with one label make the label occur twice. */
  lemma CountTwice(p: Label, s: seq<Note>, i: nat, j: nat)
    requires i < j < |s| && LabelOf(p, s[i]) == LabelOf(p, s[j])
    ensures Count(p, LabelOf(p, s[i]), s) >= 2
  {
    CountSplit(p, LabelOf(p, s[i]), s, j);
    CountSplit(p, LabelOf(p, s[i]), RemoveAt(s, j), i);
  }

  // ---------- members ----------

  lemma {:induction false} InsertMembers(cfg: Settings, s: seq<Note>, n: Note)
    ensures forall m :: m in InsertSorted(cfg, s, n) <==> m == n || m in s
  {
    if s != [] && Cmp(cfg, s[0], n) < 0 {
      InsertMembers(cfg, s[1..], n);
      assert forall m :: m in s <==> m == s[0] || m in s[1..];
    }
  }

  lemma {:induction false} SortMembers(cfg: Settings, s: seq<Note>)
    ensures forall m :: m in StableSort(cfg, s) <==> m in s
  {
    if s != [] {
      SortMembers(cfg, s[1..]);
      InsertMembers(cfg, StableSort(cfg, s[1..]), s[0]);
      assert forall m :: m in s <==> m == s[0] || m in s[1..];
    }
  }

  // ---------- order ----------

  ghost predicate Sorted(cfg: Settings, s: seq<Note>) {
    forall i, j | 0 <= i < j < |s| :: Rank(cfg, s[i]) <= Rank(cfg, s[j])
  }

  /** Sorted insertion keeps a queue sorted. */
  lemma {:induction false} InsertKeepsSorted(cfg: Settings, base: int, s: seq<Note>, n: Note)
    requires AllInWindow(cfg, base, s) && InWindow(cfg, base, n) && Sorted(cfg, s)
    ensures AllInWindow(cfg, base, InsertSorted(cfg, s, n)) && Sorted(cfg, InsertSorted(cfg, s, n))
  {
    InsertMembers(cfg, s, n);
    if s != [] {
      CmpIsRankOrder(cfg, base, s[0], n);
      if Cmp(cfg, s[0], n) < 0 {
        InsertKeepsSorted(cfg, base, s[1..], n);
        InsertMembers(cfg, s[1..], n);
        var r := InsertSorted(cfg, s[1..], n);
        forall j | 0 <= j < |r| ensures Rank(cfg, s[0]) <= Rank(cfg, r[j]) {
          assert r[j] in r;
        }
      }
    }
  }

  /** Sorting produces a sorted queue with the same notifications. */
  lemma {:induction false} SortSorts(cfg: Settings, base: int, s: seq<Note>)
    requires AllInWindow(cfg, base, s)
    ensures Sorted(cfg, StableSort(cfg, s)) && AllInWindow(cfg, base, StableSort(cfg, s))
    ensures forall p, x :: Count(p, x, StableSort(cfg, s)) == Count(p, x, s)
  {
    if s != [] {
      SortSorts(cfg, base, s[1..]);
      InsertKeepsSorted(cfg, base, StableSort(cfg, s[1..]), s[0]);
    }
    forall p, x ensures Count(p, x, StableSort(cfg, s)) == Count(p, x, s) {
      CountSort(p, x, cfg, s);
    }
  }

  /** The position of an insertion: everything before compares below, everything from there on does not. */
  lemma {:induction false} InsertSplits(cfg: Settings, s: seq<Note>, n: Note) returns (i: nat)
    ensures i <= |s| && InsertSorted(cfg, s, n) == s[..i] + [n] + s[i..]
    ensures forall j | 0 <= j < i :: Cmp(cfg, s[j], n) < 0
    ensures i < |s| ==> Cmp(cfg, s[i], n) >= 0
  {
    if s == [] || Cmp(cfg, s[0], n) >= 0 {
      i := 0;
    } else {
      var k := InsertSplits(cfg, s[1..], n);
      i := k + 1;
      assert InsertSorted(cfg, s, n) == [s[0]] + (s[1..][..k] + [n] + s[1..][k..]);
      assert [s[0]] + s[1..][..k] == s[..i] && s[1..][k..] == s[i..];
      forall j | 0 <= j < i ensures Cmp(cfg, s[j], n) < 0 {
        if j > 0 { assert s[1..][j - 1] == s[j]; }
      }
      if i < |s| { assert s[1..][k] == s[i]; }
    }
  }
}
