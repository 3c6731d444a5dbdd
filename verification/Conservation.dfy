/** What no operation on the queues breaks: every notification object is in exactly one
    place, ids stay distinct, and the signals on the bus follow the life of the object. */
module Conservation {
  import opened Notifications
  import opened SortedQueue
  import opened Seeping
  import opened QueueSpec

  // ---------- the invariant ----------

  ghost function Notes(d: seq<Dropped>): (r: seq<Note>)
    ensures |r| == |d| && forall i | 0 <= i < |d| :: r[i] == d[i].note
  {
    seq(|d|, i requires 0 <= i < |d| => d[i].note)
  }

  /** How often a label occurs in the queues. */
  ghost function Live(p: Label, x: int, q: Queues): nat {
    Count(p, x, q.displayed) + Count(p, x, q.waiting) + Count(p, x, q.history)
  }

  /** How often it occurs in the queues and among the notifications that were let go. */
  ghost function All(p: Label, x: int, q: Queues): nat {
    Live(p, x, q) + Count(p, x, Notes(q.dropped))
  }

  /** Every object ever created is in exactly one place, exactly once. */
  ghost predicate EachObjectOnce(q: Queues) {
    forall k: int :: All(Key, k, q) == (if 0 <= k < q.born then 1 else 0)
  }

  /** No id is held twice, and the counter is not behind any id. */
  ghost predicate IdsDistinct(q: Queues) {
    && (forall x: int :: Live(Id, x, q) <= (if 0 < x <= q.nextId then 1 else 0))
    && 0 <= q.nextId
  }

  ghost predicate WasClosed(log: seq<Event>, key: nat) {
    exists e :: e in log && e.Closed? && e.key == key
  }

  /** Nothing about an object follows its NotificationClosed: no second one, no action. */
  ghost predicate ClosedIsLast(log: seq<Event>) {
    forall i, j | 0 <= i < j < |log| && log[i].Closed? :: log[j].key != log[i].key
  }

  /** The flag says whether the object may still be signalled, and what the bus heard about the
      object named its id. */
  ghost predicate FlagAgrees(log: seq<Event>, n: Note) {
    && (forall e | e in log && e.key == n.key :: e.id == n.id)
    && (n.dbusValid ==> !WasClosed(log, n.key))
    && (!n.dbusValid ==> n.actions == {} && (n.fromBus ==> WasClosed(log, n.key)))
    && (n.redisplayed ==> !n.dbusValid)
  }

  /** A notification that left other than by giving its slot away, or by being lost, is
      finished on the bus. */
  ghost predicate LeftProperly(log: seq<Event>, d: Dropped) {
    FlagAgrees(log, d.note) && (d.cause != Replaced && d.cause != Shadowed ==> !d.note.dbusValid)
  }

  ghost predicate SignalsAgree(q: Queues) {
    && ClosedIsLast(q.log)
    && (forall n | n in q.displayed :: FlagAgrees(q.log, n))
    && (forall n | n in q.waiting :: FlagAgrees(q.log, n))
    && (forall n | n in q.history :: FlagAgrees(q.log, n) && !n.dbusValid)
    && (forall d | d in q.dropped :: LeftProperly(q.log, d))
    && (forall e | e in q.log :: e.key < q.born && (e.Closed? ==> 1 <= e.reason <= 4))
  }

  /** What holds whatever ids clients ask for. */
  ghost predicate Sound(q: Queues) {
    EachObjectOnce(q) && SignalsAgree(q)
  }

  ghost predicate NoneLost(q: Queues) {
    forall d | d in q.dropped :: d.cause != Shadowed
  }

  /** What holds besides while they ask for safe ones. */
  ghost predicate Inv(q: Queues) {
    Sound(q) && IdsDistinct(q) && NoneLost(q)
  }

  /** From `q` to `r` objects only move; what is let go stays let go. */
  ghost predicate Conserves(q: Queues, r: Queues) {
    && q.dropped <= r.dropped
    && (forall p, x :: All(p, x, q) == All(p, x, r))
    && q.nextId == r.nextId && q.born == r.born
  }

  // ---------- consequences ----------

  lemma CountDrop(p: Label, x: int, d: seq<Dropped>, y: Dropped)
    ensures Count(p, x, Notes(d + [y])) == Count(p, x, Notes(d)) + One(p, x, y.note)
  {
    assert Notes(d + [y]) == Notes(d) + [y.note];
    CountSnoc(p, x, Notes(d), y.note);
  }

  lemma ConservesKeepsIds(q: Queues, r: Queues)
    requires Conserves(q, r)
    ensures forall x :: Live(Id, x, r) <= Live(Id, x, q)
    ensures IdsDistinct(q) ==> IdsDistinct(r)
    ensures EachObjectOnce(q) ==> EachObjectOnce(r)
  {
    var rest := r.dropped[|q.dropped|..];
    assert Notes(r.dropped) == Notes(q.dropped) + Notes(rest);
    forall x ensures Live(Id, x, r) <= Live(Id, x, q) {
      CountConcat(Id, x, Notes(q.dropped), Notes(rest));
      assert All(Id, x, q) == All(Id, x, r);
    }
    if EachObjectOnce(q) {
      forall k ensures All(Key, k, r) == (if 0 <= k < r.born then 1 else 0) {
        assert All(Key, k, q) == All(Key, k, r);
      }
    }
  }

  lemma ConservesTransitive(q: Queues, r: Queues, s: Queues)
    requires Conserves(q, r) && Conserves(r, s)
    ensures Conserves(q, s)
  {
  }

  /** No notification anywhere carries the key. */
  ghost predicate Absent(q: Queues, key: nat) {
    && (forall n | n in q.displayed :: n.key != key)
    && (forall n | n in q.waiting :: n.key != key)
    && (forall n | n in q.history :: n.key != key)
    && (forall d | d in q.dropped :: d.note.key != key)
  }

  lemma CountedAbsent(q: Queues, key: nat)
    requires All(Key, key, q) == 0
    ensures Absent(q, key)
  {
    CountAbsent(Key, key, q.displayed);
    CountAbsent(Key, key, q.waiting);
    CountAbsent(Key, key, q.history);
    CountAbsent(Key, key, Notes(q.dropped));
    forall d | d in q.dropped ensures d.note.key != key {
      var i :| 0 <= i < |q.dropped| && q.dropped[i] == d;
      assert Notes(q.dropped)[i] in Notes(q.dropped);
    }
  }

  lemma LogGrows(log: seq<Event>, e: Event, key: nat)
    ensures WasClosed(log + [e], key) <==> WasClosed(log, key) || (e.Closed? && e.key == key)
  {
    if WasClosed(log, key) {
      var x :| x in log && x.Closed? && x.key == key;
      assert x in log + [e];
    }
    if e.Closed? && e.key == key {
      assert e in log + [e];
    }
  }

  lemma FlagSurvives(log: seq<Event>, e: Event, n: Note)
    requires FlagAgrees(log, n) && (e.key == n.key ==> e.ActionInvoked? && e.id == n.id)
    ensures FlagAgrees(log + [e], n)
  {
    LogGrows(log, e, n.key);
  }

  /** Appending an event about a not yet closed object keeps the log well ordered. */
  lemma LogStaysOrdered(log: seq<Event>, e: Event)
    requires ClosedIsLast(log) && !WasClosed(log, e.key)
    ensures ClosedIsLast(log + [e])
  {
    var l := log + [e];
    forall i, j | 0 <= i < j < |l| && l[i].Closed? ensures l[j].key != l[i].key {
      assert l[i] in log;
    }
  }

  /** Signalling one object leaves the agreement of all others alone. */
  lemma SignalOther(q: Queues, n: Note, reason: int)
    requires SignalsAgree(q) && Absent(q, n.key) && FlagAgrees(q.log, n) && n.key < q.born
    ensures SignalsAgree(q.(log := LogClosed(q.log, n, reason)))
    ensures FlagAgrees(LogClosed(q.log, n, reason), Signalled(n)) && !Signalled(n).dbusValid
  {
    if n.dbusValid {
      var e := Closed(n.key, n.id, ReasonOnBus(reason));
      LogStaysOrdered(q.log, e);
      LogGrows(q.log, e, n.key);
      forall m | m in q.displayed || m in q.waiting || m in q.history ensures FlagAgrees(q.log + [e], m) {
        FlagSurvives(q.log, e, m);
      }
      forall d | d in q.dropped ensures LeftProperly(q.log + [e], d) {
        FlagSurvives(q.log, e, d.note);
      }
    }
  }

  // ---------- the moves ----------

  /** `r` is `q` plus the notification `n`. */
  ghost predicate Adds(q: Queues, n: Note, r: Queues) {
    && q.dropped <= r.dropped
    && (forall p, x :: All(p, x, r) == All(p, x, q) + One(p, x, n))
    && q.nextId == r.nextId && q.born == r.born
  }

  lemma HistoryPushAdds(cfg: Settings, q: Queues, n: Note)
    ensures Adds(q, n, HistoryPush(cfg, q, n))
  {
    var r := HistoryPush(cfg, q, n);
    forall p, x ensures All(p, x, r) == All(p, x, q) + One(p, x, n) {
      if n.historyIgnore {
        CountDrop(p, x, q.dropped, Dropped(n, HistoryIgnored));
      } else if cfg.historyLength > 0 && |q.history| >= cfg.historyLength {
        CountDrop(p, x, q.dropped, Dropped(q.history[0], Evicted));
        CountSnoc(p, x, q.history[1..], n);
      } else {
        CountSnoc(p, x, q.history, n);
      }
    }
  }

  lemma HistoryPushAgrees(cfg: Settings, q: Queues, n: Note)
    requires SignalsAgree(q) && FlagAgrees(q.log, n) && !n.dbusValid
    ensures SignalsAgree(HistoryPush(cfg, q, n))
  {
  }

  lemma RetireAdds(cfg: Settings, q: Queues, n: Note, reason: int)
    ensures Adds(q, n, Retire(cfg, q, n, reason))
  {
    if n.redisplayed {
      HistoryPushAdds(cfg, q, n);
    } else {
      var s := q.(log := LogClosed(q.log, n, reason));
      HistoryPushAdds(cfg, s, Signalled(n));
      forall p, x ensures All(p, x, Retire(cfg, q, n, reason)) == All(p, x, q) + One(p, x, n) {
        assert All(p, x, s) == All(p, x, q);
      }
    }
  }

  lemma RetireAgrees(cfg: Settings, q: Queues, n: Note, reason: int)
    requires SignalsAgree(q) && Absent(q, n.key) && FlagAgrees(q.log, n) && n.key < q.born
    ensures SignalsAgree(Retire(cfg, q, n, reason))
  {
    if n.redisplayed {
      HistoryPushAgrees(cfg, q, n);
    } else {
      SignalOther(q, n, reason);
      HistoryPushAgrees(cfg, q.(log := LogClosed(q.log, n, reason)), Signalled(n));
    }
  }

  /** The invariants hold again, nothing appeared or vanished, and a positive
      history_length is respected if it was before. */
  ghost predicate Keeps(cfg: Settings, q: Queues, r: Queues) {
    Sound(r) && Conserves(q, r) && HistoryFits(cfg, q, r) && (Inv(q) ==> Inv(r))
  }

  ghost predicate HistoryFits(cfg: Settings, q: Queues, r: Queues) {
    cfg.historyLength > 0 ==> |r.history| <= |q.history| || |r.history| <= cfg.historyLength
  }

  lemma KeepsTransitive(cfg: Settings, q: Queues, r: Queues, s: Queues)
    requires Keeps(cfg, q, r) && Keeps(cfg, r, s)
    ensures Keeps(cfg, q, s)
  {
    ConservesTransitive(q, r, s);
  }

  lemma KeepsWhen(cfg: Settings, q: Queues, r: Queues)
    requires Sound(q) && Conserves(q, r) && SignalsAgree(r) && HistoryFits(cfg, q, r)
    requires Inv(q) ==> NoneLost(r)
    ensures Keeps(cfg, q, r)
  {
    ConservesKeepsIds(q, r);
  }

  /** Taking one notification out leaves its key nowhere else. */
  lemma TakenOut(q: Queues, rest: Queues, n: Note)
    requires EachObjectOnce(q) && Adds(rest, n, q)
    ensures Absent(rest, n.key) && n.key < q.born
  {
    assert All(Key, n.key, q) == All(Key, n.key, rest) + One(Key, n.key, n);
    CountedAbsent(rest, n.key);
  }

  /** A notification that is taken out and retired. */
  lemma RetireKeeps(cfg: Settings, q: Queues, rest: Queues, n: Note, reason: int)
    requires Sound(q) && Adds(rest, n, q) && rest.dropped == q.dropped && rest.history == q.history
    requires SignalsAgree(rest) && rest.log == q.log && FlagAgrees(q.log, n)
    ensures Keeps(cfg, q, Retire(cfg, rest, n, reason))
  {
    var r := Retire(cfg, rest, n, reason);
    TakenOut(q, rest, n);
    RetireAgrees(cfg, rest, n, reason);
    RetireAdds(cfg, rest, n, reason);
    forall p, x ensures All(p, x, q) == All(p, x, r) {
      assert All(p, x, q) == All(p, x, rest) + One(p, x, n);
    }
    KeepsWhen(cfg, q, r);
  }

  /** The displayed holder of an id that waits too is let go without a signal. */
  function Shadow(q: Queues, d: nat): Queues
    requires d < |q.displayed|
  {
    Drop(q, q.displayed[d], Shadowed).(displayed := RemoveAt(q.displayed, d))
  }

  lemma ShadowSound(cfg: Settings, q: Queues, d: nat)
    requires Sound(q) && d < |q.displayed|
    ensures Sound(Shadow(q, d)) && Conserves(q, Shadow(q, d))
  {
    var r, n := Shadow(q, d), q.displayed[d];
    assert n in q.displayed;
    forall p, x ensures All(p, x, q) == All(p, x, r) {
      CountSplit(p, x, q.displayed, d);
      CountDrop(p, x, q.dropped, Dropped(n, Shadowed));
    }
    ConservesKeepsIds(q, r);
  }

  /** How often a label occurs among what is displayed or waits. */
  ghost function Current(p: Label, x: int, q: Queues): nat {
    Count(p, x, q.displayed) + Count(p, x, q.waiting)
  }

  /** No two notifications that are displayed or wait share the label. What is in history, or
      where the counter is, does not matter. */
  ghost predicate Once(p: Label, q: Queues) {
    forall x: int :: Current(p, x, q) <= 1
  }

  /** Objects are distinct whatever ids clients ask for; ids while those are safe. */
  lemma WhenOnce(q: Queues)
    ensures Sound(q) ==> Once(Key, q)
    ensures IdsDistinct(q) ==> Once(Id, q)
  {
    forall x: int ensures Sound(q) ==> Current(Key, x, q) <= 1 {
      assert EachObjectOnce(q) ==> All(Key, x, q) <= 1;
    }
    forall x: int ensures IdsDistinct(q) ==> Current(Id, x, q) <= 1 {
      assert IdsDistinct(q) ==> Live(Id, x, q) <= 1;
    }
  }

  /** An id that is live at most once is not in displayed and waiting together. */
  lemma IdInOneQueue(q: Queues, id: int)
    requires Once(Id, q)
    ensures IndexOfId(q.displayed, id) == |q.displayed| || IndexOfId(q.waiting, id) == |q.waiting|
  {
    var d, w := IndexOfId(q.displayed, id), IndexOfId(q.waiting, id);
    assert Current(Id, id, q) <= 1;
    if d < |q.displayed| && w < |q.waiting| {
      CountSplit(Id, id, q.displayed, d);
      CountSplit(Id, id, q.waiting, w);
    }
  }

  lemma CloseWaitingKeepsAll(cfg: Settings, q: Queues, w: nat, reason: int)
    requires Sound(q) && w < |q.waiting|
    ensures Keeps(cfg, q, Retire(cfg, q.(waiting := RemoveAt(q.waiting, w)), q.waiting[w], reason))
  {
    var rest, n := q.(waiting := RemoveAt(q.waiting, w)), q.waiting[w];
    forall p, x ensures All(p, x, q) == All(p, x, rest) + One(p, x, n) {
      CountSplit(p, x, q.waiting, w);
    }
    RetireKeeps(cfg, q, rest, n, reason);
  }

  lemma CloseShownKeepsAll(cfg: Settings, q: Queues, d: nat, reason: int)
    requires Sound(q) && d < |q.displayed|
    ensures Keeps(cfg, q, Retire(cfg, q.(displayed := RemoveAt(q.displayed, d)), q.displayed[d], reason))
  {
    var rest, n := q.(displayed := RemoveAt(q.displayed, d)), q.displayed[d];
    forall p, x ensures All(p, x, q) == All(p, x, rest) + One(p, x, n) {
      CountSplit(p, x, q.displayed, d);
    }
    RetireKeeps(cfg, q, rest, n, reason);
  }

  lemma CloseIdKeeps(cfg: Settings, q: Queues, id: int, reason: int)
    requires Sound(q)
    ensures Keeps(cfg, q, CloseId(cfg, q, id, reason))
  {
    var d, w := IndexOfId(q.displayed, id), IndexOfId(q.waiting, id);
    if d < |q.displayed| && w < |q.waiting| {
      var s := Shadow(q, d);
      ShadowSound(cfg, q, d);
      CloseWaitingKeepsAll(cfg, s, w, reason);
      ConservesTransitive(q, s, CloseId(cfg, q, id, reason));
      if IdsDistinct(q) {
        WhenOnce(q);
        IdInOneQueue(q, id);
      }
    } else if d < |q.displayed| {
      CloseShownKeepsAll(cfg, q, d, reason);
    } else if w < |q.waiting| {
      CloseWaitingKeepsAll(cfg, q, w, reason);
    }
  }

  ghost predicate HeldIn(s: seq<Note>, id: int) {
    exists n :: n in s && n.id == id
  }

  lemma HeldWhenFound(s: seq<Note>, id: int)
    ensures HeldIn(s, id) <==> IndexOfId(s, id) < |s|
  {
    var i := IndexOfId(s, id);
    if i < |s| { assert s[i] in s; }
  }

  /** A notification was lost between `q` and `r`. */
  ghost predicate LosesOne(q: Queues, r: Queues)
    requires |q.dropped| <= |r.dropped|
  {
    exists i :: |q.dropped| <= i < |r.dropped| && r.dropped[i].cause == Shadowed
  }

  lemma RetireDrops(cfg: Settings, q: Queues, n: Note, reason: int)
    ensures var r := Retire(cfg, q, n, reason);
            && q.dropped <= r.dropped
            && forall i | |q.dropped| <= i < |r.dropped| :: r.dropped[i].cause != Shadowed
  {
  }

  /** Closing an id loses a notification exactly when the id is held in both live queues. */
  lemma CloseLosesIff(cfg: Settings, q: Queues, id: int, reason: int)
    ensures var r := CloseId(cfg, q, id, reason);
            q.dropped <= r.dropped && (LosesOne(q, r) <==> HeldIn(q.displayed, id) && HeldIn(q.waiting, id))
  {
    var d, w := IndexOfId(q.displayed, id), IndexOfId(q.waiting, id);
    HeldWhenFound(q.displayed, id);
    HeldWhenFound(q.waiting, id);
    if w < |q.waiting| {
      var s := if d < |q.displayed| then Shadow(q, d) else q;
      RetireDrops(cfg, s.(waiting := RemoveAt(q.waiting, w)), q.waiting[w], reason);
      if d < |q.displayed| {
        assert CloseId(cfg, q, id, reason).dropped[|q.dropped|] == Dropped(q.displayed[d], Shadowed);
      }
    } else if d < |q.displayed| {
      RetireDrops(cfg, q.(displayed := RemoveAt(q.displayed, d)), q.displayed[d], reason);
    }
  }

  /** Fields that the signals and labels do not depend on may change freely. */
  predicate SameIdentity(n: Note, m: Note) {
    && n.key == m.key && n.id == m.id && n.fromBus == m.fromBus
    && n.dbusValid == m.dbusValid && n.actions == m.actions && n.redisplayed == m.redisplayed
  }

  lemma SetDisplayedKeeps(cfg: Settings, q: Queues, i: nat, n: Note)
    requires Sound(q) && i < |q.displayed| && SameIdentity(q.displayed[i], n)
    ensures Keeps(cfg, q, SetDisplayed(q, i, n))
  {
    var r := SetDisplayed(q, i, n);
    forall p, x ensures All(p, x, q) == All(p, x, r) {
      CountUpdate(p, x, q.displayed, i, n);
    }
    assert q.displayed[i] in q.displayed;
    KeepsWhen(cfg, q, r);
  }

  lemma SetWaitingKeeps(cfg: Settings, q: Queues, i: nat, n: Note)
    requires Sound(q) && i < |q.waiting| && SameIdentity(q.waiting[i], n)
    ensures Keeps(cfg, q, SetWaiting(q, i, n))
  {
    var r := SetWaiting(q, i, n);
    forall p, x ensures All(p, x, q) == All(p, x, r) {
      CountUpdate(p, x, q.waiting, i, n);
    }
    assert q.waiting[i] in q.waiting;
    KeepsWhen(cfg, q, r);
  }

  lemma ToWaitingKeeps(cfg: Settings, q: Queues, i: nat)
    requires Sound(q) && i < |q.displayed|
    ensures Keeps(cfg, q, ToWaiting(cfg, q, i))
  {
    var n, r := q.displayed[i], ToWaiting(cfg, q, i);
    InsertMembers(cfg, q.waiting, n);
    forall p, x ensures All(p, x, q) == All(p, x, r) {
      CountSplit(p, x, q.displayed, i);
      CountInsert(p, x, cfg, q.waiting, n);
    }
    KeepsWhen(cfg, q, r);
  }

  lemma ToDisplayedKeeps(cfg: Settings, q: Queues, i: nat, time: int)
    requires Sound(q) && i < |q.waiting|
    ensures Keeps(cfg, q, ToDisplayed(cfg, q, i, time))
  {
    var n, r := q.waiting[i].(start := time), ToDisplayed(cfg, q, i, time);
    InsertMembers(cfg, q.displayed, n);
    assert q.waiting[i] in q.waiting;
    forall p, x ensures All(p, x, q) == All(p, x, r) {
      CountSplit(p, x, q.waiting, i);
      CountInsert(p, x, cfg, q.displayed, n);
    }
    KeepsWhen(cfg, q, r);
  }

  lemma SwapKeeps(cfg: Settings, q: Queues, time: int)
    requires Sound(q) && q.waiting != [] && q.displayed != []
    ensures Keeps(cfg, q, Swap(cfg, time, q))
  {
    var last, r := |q.displayed| - 1, Swap(cfg, time, q);
    var up, down := q.waiting[0].(start := time), q.displayed[last];
    InsertMembers(cfg, q.displayed[..last], up);
    InsertMembers(cfg, q.waiting[1..], down);
    assert q.waiting[0] in q.waiting && down in q.displayed;
    assert RemoveAt(q.displayed, last) == q.displayed[..last];
    forall p, x ensures All(p, x, q) == All(p, x, r) {
      CountSplit(p, x, q.displayed, last);
      CountInsert(p, x, cfg, q.displayed[..last], up);
      CountInsert(p, x, cfg, q.waiting[1..], down);
    }
    KeepsWhen(cfg, q, r);
  }

  lemma HistoryPopKeeps(cfg: Settings, q: Queues, i: nat)
    requires Sound(q) && i < |q.history|
    ensures Keeps(cfg, q, HistoryPopAt(cfg, q, i))
  {
    var n, r := Redisplayed(cfg, q.history[i]), HistoryPopAt(cfg, q, i);
    InsertMembers(cfg, q.waiting, n);
    assert q.history[i] in q.history;
    forall p, x ensures All(p, x, q) == All(p, x, r) {
      CountSplit(p, x, q.history, i);
      CountInsert(p, x, cfg, q.waiting, n);
    }
    KeepsWhen(cfg, q, r);
  }

  lemma HistoryDropKeeps(cfg: Settings, q: Queues, i: nat)
    requires Sound(q) && i < |q.history|
    ensures Keeps(cfg, q, Drop(q, q.history[i], Removed).(history := RemoveAt(q.history, i)))
  {
    var r := Drop(q, q.history[i], Removed).(history := RemoveAt(q.history, i));
    assert q.history[i] in q.history;
    forall p, x ensures All(p, x, q) == All(p, x, r) {
      CountSplit(p, x, q.history, i);
      CountDrop(p, x, q.dropped, Dropped(q.history[i], Removed));
    }
    KeepsWhen(cfg, q, r);
  }

  lemma HistoryRemoveKeeps(cfg: Settings, q: Queues, id: int)
    requires Sound(q)
    ensures Keeps(cfg, q, HistoryRemoveById(q, id))
  {
    var i := IndexOfId(q.history, id);
    if i < |q.history| { HistoryDropKeeps(cfg, q, i); }
  }

  lemma {:induction false} HistoryClearKeeps(cfg: Settings, q: Queues)
    requires Sound(q)
    ensures Keeps(cfg, q, HistoryClear(q))
    decreases |q.history|
  {
    if q.history != [] {
      HistoryDropKeeps(cfg, q, 0);
      var r := Drop(q, q.history[0], Removed).(history := q.history[1..]);
      assert RemoveAt(q.history, 0) == q.history[1..];
      HistoryClearKeeps(cfg, r);
      KeepsTransitive(cfg, q, r, HistoryClear(r));
    }
  }

  lemma RemoveIdKeeps(cfg: Settings, q: Queues, id: int, reason: int)
    requires Sound(q)
    ensures Keeps(cfg, q, RemoveId(cfg, q, id, reason))
  {
    var c := CloseId(cfg, q, id, reason);
    CloseIdKeeps(cfg, q, id, reason);
    HistoryRemoveKeeps(cfg, c, id);
    KeepsTransitive(cfg, q, c, RemoveId(cfg, q, id, reason));
  }

  lemma {:induction false} CloseDisplayedKeeps(cfg: Settings, q: Queues)
    requires Sound(q)
    ensures Keeps(cfg, q, CloseDisplayed(cfg, q))
    decreases |q.displayed|
  {
    if q.displayed != [] {
      var c := CloseId(cfg, q, q.displayed[0].id, REASON_USER);
      CloseIdKeeps(cfg, q, q.displayed[0].id, REASON_USER);
      CloseDisplayedKeeps(cfg, c);
      KeepsTransitive(cfg, q, c, CloseDisplayed(cfg, c));
    }
  }

  lemma {:induction false} CloseWaitingKeeps(cfg: Settings, q: Queues)
    requires Sound(q)
    ensures Keeps(cfg, q, CloseWaiting(cfg, q))
    decreases |q.waiting|
  {
    if q.waiting != [] {
      var c := CloseId(cfg, q, q.waiting[0].id, REASON_USER);
      CloseIdKeeps(cfg, q, q.waiting[0].id, REASON_USER);
      CloseWaitingKeeps(cfg, c);
      KeepsTransitive(cfg, q, c, CloseWaiting(cfg, c));
    }
  }

  lemma HistoryPushAllKeeps(cfg: Settings, q: Queues)
    requires Sound(q)
    ensures Keeps(cfg, q, HistoryPushAll(cfg, q))
  {
    var c := CloseDisplayed(cfg, q);
    CloseDisplayedKeeps(cfg, q);
    CloseWaitingKeeps(cfg, c);
    KeepsTransitive(cfg, q, c, CloseWaiting(cfg, c));
  }

  // ---------- the update ----------

  lemma SweepStepKeeps(cfg: Settings, status: Status, time: int, clock: nat -> int, q: Queues, i: nat)
    requires Sound(q) && i < |q.displayed|
    ensures Keeps(cfg, q, SweepStep(cfg, status, time, clock, q, i).0)
  {
    var n := q.displayed[i];
    if n.locked {
    } else if n.closeMark != 0 {
      var c := SetDisplayed(q, i, n.(closeMark := 0));
      SetDisplayedKeeps(cfg, q, i, n.(closeMark := 0));
      CloseIdKeeps(cfg, c, n.id, n.closeMark);
      KeepsTransitive(cfg, q, c, CloseId(cfg, c, n.id, n.closeMark));
    } else if n.removeMark != 0 {
      var c := SetDisplayed(q, i, n.(removeMark := 0));
      SetDisplayedKeeps(cfg, q, i, n.(removeMark := 0));
      RemoveIdKeeps(cfg, c, n.id, n.removeMark);
      KeepsTransitive(cfg, q, c, RemoveId(cfg, c, n.id, n.removeMark));
    } else {
      SweepUnmarkedKeeps(cfg, status, time, clock, q, i);
    }
  }

  lemma SweepUnmarkedKeeps(cfg: Settings, status: Status, time: int, clock: nat -> int, q: Queues, i: nat)
    requires Sound(q) && i < |q.displayed|
    ensures Keeps(cfg, q, SweepUnmarked(cfg, status, time, clock, q, i).0)
  {
    var n := q.displayed[i];
    var t := Touched(n, status, clock(n.key));
    if IsFinished(n, status, time) {
      CloseIdKeeps(cfg, q, n.id, REASON_TIME);
    } else {
      var q' := SetDisplayed(q, i, t);
      SetDisplayedKeeps(cfg, q, i, t);
      if Suppressed(t, status) {
        CloseIdKeeps(cfg, q', t.id, REASON_UNDEF);
        KeepsTransitive(cfg, q, q', CloseId(cfg, q', t.id, REASON_UNDEF));
      } else if !IsReady(t, status, true) {
        ToWaitingKeeps(cfg, q', i);
        KeepsTransitive(cfg, q, q', ToWaiting(cfg, q', i));
      }
    }
  }

  lemma {:induction false} SweepKeeps(cfg: Settings, status: Status, time: int, clock: nat -> int, q: Queues, i: nat)
    requires Sound(q) && i <= |q.displayed|
    ensures Keeps(cfg, q, Sweep(cfg, status, time, clock, q, i))
    decreases |q.displayed| - i
  {
    if i < |q.displayed| {
      var s := SweepStep(cfg, status, time, clock, q, i);
      SweepStepKeeps(cfg, status, time, clock, q, i);
      SweepKeeps(cfg, status, time, clock, s.0, s.1);
      KeepsTransitive(cfg, q, s.0, Sweep(cfg, status, time, clock, s.0, s.1));
    }
  }

  lemma PromoteStepKeeps(cfg: Settings, status: Status, time: int, q: Queues, i: nat)
    requires Sound(q) && i < |q.waiting|
    ensures Keeps(cfg, q, PromoteStep(cfg, status, time, q, i).0)
  {
    var n := q.waiting[i];
    var q' := SetWaiting(q, i, n.(start := time));
    SetWaitingKeeps(cfg, q, i, n.(start := time));
    if Suppressed(n, status) {
      CloseIdKeeps(cfg, q', n.id, REASON_UNDEF);
      KeepsTransitive(cfg, q, q', CloseId(cfg, q', n.id, REASON_UNDEF));
    } else if IsReady(n, status, false) {
      if n.skipDisplay && !n.redisplayed {
        CloseIdKeeps(cfg, q', n.id, REASON_USER);
        KeepsTransitive(cfg, q, q', CloseId(cfg, q', n.id, REASON_USER));
      } else {
        ToDisplayedKeeps(cfg, q, i, time);
      }
    }
  }

  lemma {:induction false} PromoteKeeps(cfg: Settings, status: Status, time: int, limit: int, q: Queues, i: nat)
    requires Sound(q) && i <= |q.waiting|
    ensures Keeps(cfg, q, Promote(cfg, status, time, limit, q, i))
    decreases |q.waiting| - i
  {
    if i < |q.waiting| && |q.displayed| < limit {
      var s := PromoteStep(cfg, status, time, q, i);
      PromoteStepKeeps(cfg, status, time, q, i);
      PromoteKeeps(cfg, status, time, limit, s.0, s.1);
      KeepsTransitive(cfg, q, s.0, Promote(cfg, status, time, limit, s.0, s.1));
    }
  }

  lemma {:induction false} TrimKeeps(cfg: Settings, limit: int, q: Queues)
    requires Sound(q) && 0 <= limit
    ensures Keeps(cfg, q, Trim(cfg, limit, q))
    decreases |q.displayed|
  {
    if |q.displayed| > limit {
      var r := ToWaiting(cfg, q, |q.displayed| - 1);
      ToWaitingKeeps(cfg, q, |q.displayed| - 1);
      TrimKeeps(cfg, limit, r);
      KeepsTransitive(cfg, q, r, Trim(cfg, limit, r));
    }
  }

  lemma {:induction false} SeepKeeps(cfg: Settings, status: Status, time: int, q: Queues)
    requires Sound(q)
    ensures Keeps(cfg, q, Seep(cfg, status, time, q))
    decreases UrgencyInversions(cfg, q.displayed, q.waiting), AllDescents(cfg, q.displayed, q.waiting),
              Depth(cfg, q.displayed, q.waiting)
  {
    if Seeps(cfg, status, q) {
      var r := Swap(cfg, time, q);
      SwapDecreases(cfg, status, time, q);
      SwapKeeps(cfg, q, time);
      SeepKeeps(cfg, status, time, r);
      KeepsTransitive(cfg, q, r, Seep(cfg, status, time, r));
    }
  }
}
