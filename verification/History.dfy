/** What closing everything leaves in history, and what comes back from there
    (queues_history_push_all, queues_history_pop in src/queues.c). */
module History {
  import opened Notifications
  import opened SortedQueue
  import opened QueueSpec
  import opened Conservation
  import opened Distinct

  /** A notification as it is filed after being closed. */
  function Filed(n: Note): Note {
    if n.redisplayed then n else Signalled(n)
  }

  /** What is kept of `s`, in order. */
  function Kept(s: seq<Note>): seq<Note> {
    if s == [] then []
    else (if s[0].historyIgnore then [] else [Filed(s[0])]) + Kept(s[1..])
  }

  /** The newest entries, as many as history_length allows. */
  function Newest(cfg: Settings, s: seq<Note>): seq<Note> {
    if cfg.historyLength > 0 && |s| > cfg.historyLength then s[|s| - cfg.historyLength..] else s
  }

  predicate Fits(cfg: Settings, q: Queues) {
    cfg.historyLength > 0 ==> |q.history| <= cfg.historyLength
  }

  lemma RetireFiles(cfg: Settings, q: Queues, n: Note, reason: int)
    requires Fits(cfg, q)
    ensures var r := Retire(cfg, q, n, reason);
            && r.history == Newest(cfg, q.history + Kept([n]))
            && r.displayed == q.displayed && r.waiting == q.waiting && Fits(cfg, r)
  {
    assert [n][1..] == [];
  }

  lemma NewestTwice(cfg: Settings, s: seq<Note>, t: seq<Note>)
    ensures Newest(cfg, Newest(cfg, s) + t) == Newest(cfg, s + t)
  {
  }

  lemma NewestThrice(cfg: Settings, h: seq<Note>, first: seq<Note>, rest: seq<Note>)
    ensures Newest(cfg, Newest(cfg, h + first) + rest) == Newest(cfg, h + (first + rest))
  {
    NewestTwice(cfg, h + first, rest);
    assert (h + first) + rest == h + (first + rest);
  }

  /** Closing a notification on screen files it, and moves nothing else. */
  lemma CloseShownFiles(cfg: Settings, q: Queues, i: nat, reason: int)
    requires Once(Id, q) && Fits(cfg, q) && i < |q.displayed|
    ensures var n := q.displayed[i];
            var c := CloseId(cfg, q, n.id, reason);
            && c.displayed == RemoveAt(q.displayed, i) && c.waiting == q.waiting
            && c.history == Newest(cfg, q.history + Kept([n])) && Fits(cfg, c)
  {
    var n := q.displayed[i];
    UniqueIndex(q, i);
    IdInOneQueue(q, n.id);
    RetireFiles(cfg, q.(displayed := RemoveAt(q.displayed, i)), n, reason);
  }

  lemma CloseWaitingOneFiles(cfg: Settings, q: Queues, i: nat, reason: int)
    requires Once(Id, q) && Fits(cfg, q) && i < |q.waiting|
    ensures var n := q.waiting[i];
            var c := CloseId(cfg, q, n.id, reason);
            && c.waiting == RemoveAt(q.waiting, i) && c.displayed == q.displayed
            && c.history == Newest(cfg, q.history + Kept([n])) && Fits(cfg, c)
  {
    var n := q.waiting[i];
    UniqueIndex(q, i);
    IdInOneQueue(q, n.id);
    RetireFiles(cfg, q.(waiting := RemoveAt(q.waiting, i)), n, reason);
  }

  lemma StillOnce(cfg: Settings, q: Queues, id: int, reason: int)
    requires Once(Id, q)
    ensures Once(Id, CloseId(cfg, q, id, reason))
  {
    CloseIdShrinks(cfg, q, id, reason);
    OnceShrinks(Id, q, CloseId(cfg, q, id, reason));
  }

  lemma KeptFirst(s: seq<Note>)
    requires s != []
    ensures Kept(s) == Kept([s[0]]) + Kept(s[1..])
  {
    var one: seq<Note> := if s[0].historyIgnore then [] else [Filed(s[0])];
    assert [s[0]][1..] == [];
    assert Kept([s[0]]) == one + [] == one;
  }

  lemma FiledBefore(cfg: Settings, h: seq<Note>, s: seq<Note>)
    requires s != []
    ensures Newest(cfg, Newest(cfg, h + Kept([s[0]])) + Kept(s[1..])) == Newest(cfg, h + Kept(s))
  {
    KeptFirst(s);
    NewestThrice(cfg, h, Kept([s[0]]), Kept(s[1..]));
  }

  lemma {:induction false} CloseDisplayedFiles(cfg: Settings, q: Queues)
    requires Once(Id, q) && Fits(cfg, q)
    ensures var r := CloseDisplayed(cfg, q);
            && r.history == Newest(cfg, q.history + Kept(q.displayed))
            && r.displayed == [] && r.waiting == q.waiting && Fits(cfg, r)
    decreases |q.displayed|
  {
    if q.displayed == [] {
      assert q.history + [] == q.history;
    } else {
      var n := q.displayed[0];
      CloseShownFiles(cfg, q, 0, REASON_USER);
      StillOnce(cfg, q, n.id, REASON_USER);
      CloseDisplayedFiles(cfg, CloseId(cfg, q, n.id, REASON_USER));
      FiledBefore(cfg, q.history, q.displayed);
    }
  }

  lemma {:induction false} CloseWaitingFiles(cfg: Settings, q: Queues)
    requires Once(Id, q) && Fits(cfg, q)
    ensures var r := CloseWaiting(cfg, q);
            && r.history == Newest(cfg, q.history + Kept(q.waiting))
            && r.waiting == [] && r.displayed == q.displayed
    decreases |q.waiting|
  {
    if q.waiting == [] {
      assert q.history + [] == q.history;
    } else {
      var n := q.waiting[0];
      CloseWaitingOneFiles(cfg, q, 0, REASON_USER);
      StillOnce(cfg, q, n.id, REASON_USER);
      CloseWaitingFiles(cfg, CloseId(cfg, q, n.id, REASON_USER));
      FiledBefore(cfg, q.history, q.waiting);
    }
  }

  /** Closing all empties the screen and the queue. History then holds the newest entries of:
      what it held, then what was on screen, then what waited, in order. */
  lemma CloseAllFilesInOrder(cfg: Settings, q: Queues)
    requires Once(Id, q) && Fits(cfg, q)
    ensures var r := HistoryPushAll(cfg, q);
            && r.displayed == [] && r.waiting == []
            && r.history == Newest(cfg, q.history + Kept(q.displayed) + Kept(q.waiting))
  {
    CloseDisplayedFiles(cfg, q);
    forall x: int ensures Current(Id, x, CloseDisplayed(cfg, q)) <= 1 {
      assert Current(Id, x, q) <= 1;
    }
    CloseWaitingFiles(cfg, CloseDisplayed(cfg, q));
    NewestTwice(cfg, q.history + Kept(q.displayed), Kept(q.waiting));
  }

  ghost function Pops(cfg: Settings, q: Queues, k: nat): Queues
    decreases k
  {
    if k == 0 then q else Pops(cfg, HistoryPop(cfg, q), k - 1)
  }

  ghost function Requeued(cfg: Settings, s: seq<Note>, waiting: seq<Note>): seq<Note> {
    if s == [] then waiting
    else Requeued(cfg, s[..|s| - 1], InsertSorted(cfg, waiting, Redisplayed(cfg, s[|s| - 1])))
  }

  lemma PopOne(cfg: Settings, q: Queues)
    requires q.history != []
    ensures var p, k := HistoryPop(cfg, q), |q.history| - 1;
            && p.history == q.history[..k] && p.displayed == q.displayed
            && p.waiting == InsertSorted(cfg, q.waiting, Redisplayed(cfg, q.history[k]))
  {
  }

  lemma RequeueNext(cfg: Settings, q: Queues, rest: nat)
    requires rest < |q.history|
    ensures var p := HistoryPop(cfg, q);
            && |p.history| == |q.history| - 1 && p.displayed == q.displayed
            && p.history[..rest] == q.history[..rest]
            && Requeued(cfg, q.history[rest..], q.waiting) == Requeued(cfg, p.history[rest..], p.waiting)
  {
    var h, p := q.history, HistoryPop(cfg, q);
    PopOne(cfg, q);
    assert h[rest..][..|h| - rest - 1] == p.history[rest..];
  }

  lemma {:induction false} PopsTakeTheNewest(cfg: Settings, q: Queues, k: nat)
    requires k <= |q.history|
    ensures var r, rest := Pops(cfg, q, k), |q.history| - k;
            && r.history == q.history[..rest] && r.displayed == q.displayed
            && r.waiting == Requeued(cfg, q.history[rest..], q.waiting)
    decreases k
  {
    if k > 0 {
      RequeueNext(cfg, q, |q.history| - k);
      PopsTakeTheNewest(cfg, HistoryPop(cfg, q), k - 1);
    }
  }

  lemma NewestPushed(cfg: Settings, h: seq<Note>, n: Note)
    requires !n.historyIgnore && (cfg.historyLength > 0 ==> |h| <= cfg.historyLength)
    ensures var r := Newest(cfg, h + Kept([n]));
            && r != [] && r[|r| - 1] == Filed(n)
            && r[..|r| - 1] == if cfg.historyLength > 0 && |h| == cfg.historyLength then h[1..] else h
  {
    assert [n][1..] == [] && Kept([n]) == [Filed(n)];
  }

  /** Closing a notification that history keeps, and popping, brings that one back. */
  lemma PopUndoesClose(cfg: Settings, q: Queues, i: nat, reason: int)
    requires Once(Id, q) && Fits(cfg, q) && i < |q.displayed| && !q.displayed[i].historyIgnore
    ensures var n := q.displayed[i];
            var r := HistoryPop(cfg, CloseId(cfg, q, n.id, reason));
            && r.displayed == RemoveAt(q.displayed, i)
            && r.waiting == InsertSorted(cfg, q.waiting, Redisplayed(cfg, Filed(n)))
            && r.history == (if cfg.historyLength > 0 && |q.history| == cfg.historyLength
                             then q.history[1..] else q.history)
  {
    var n := q.displayed[i];
    CloseShownFiles(cfg, q, i, reason);
    var c := CloseId(cfg, q, n.id, reason);
    NewestPushed(cfg, q.history, n);
    PopOne(cfg, c);
  }
}
