/** Whole runs of the daemon: any sequence of requests, clicks, menu results and updates,
    each under the settings in force at that moment. */
module Runs {
  import opened Notifications
  import opened SortedQueue
  import opened QueueSpec
  import opened Conservation
  import opened Arrival
  import opened Update

  /** `Flag` is the locking and marking done by clicks and the context menu, `Choose` an
      action picked there; `Rework` is `queues_reapply_all_rules`, with what the rules make
      of the three queues; and `Refresh` is one `queues_update`. */
  datatype Op =
    | Arrive(status: Status, n: Note, now: int, iconChanged: set<nat>)
    | ClientClose(id: int)
    | Close(id: int, reason: int)
    | Remove(id: int, reason: int)
    | CloseAll
    | Pop
    | PopById(id: int)
    | Clear
    | RemoveFromHistory(id: int)
    | Act(i: nat)
    | Choose(id: int, action: string)
    | Flag(i: nat, locked: bool, closeMark: nat, removeMark: nat)
    | Rework(displayed: seq<Note>, waiting: seq<Note>, history: seq<Note>)
    | Refresh(status: Status, time: int, clock: nat -> int)

  function Flagged(q: Queues, i: nat, locked: bool, closeMark: nat, removeMark: nat): Queues {
    if i >= |q.displayed| then q
    else SetDisplayed(q, i, q.displayed[i].(locked := locked, closeMark := closeMark, removeMark := removeMark))
  }

  /** Rules change what notifications look like, not which ones they are. */
  predicate AllSame(s: seq<Note>, t: seq<Note>) {
    |s| == |t| && forall i | 0 <= i < |s| :: SameIdentity(s[i], t[i])
  }

  predicate CanRework(q: Queues, displayed: seq<Note>, waiting: seq<Note>, history: seq<Note>) {
    AllSame(q.displayed, displayed) && AllSame(q.waiting, waiting) && AllSame(q.history, history)
  }

  function Reworked(q: Queues, displayed: seq<Note>, waiting: seq<Note>, history: seq<Note>): Queues {
    if CanRework(q, displayed, waiting, history) then
      q.(displayed := displayed, waiting := waiting, history := history)
    else q
  }

  /** What is assumed of the environment: decoded notifications are fresh. */
  ghost predicate Admissible(op: Op) {
    op.Arrive? ==> Fresh(op.n)
  }

  /** The client asks for no id that is held in history or was never handed out. */
  ghost predicate AsksSafely(q: Queues, op: Op) {
    op.Arrive? ==> IdIsSafe(q, op.n.id)
  }

  function Step(cfg: Settings, q: Queues, op: Op): Queues {
    match op
    case Arrive(status, n, now, iconChanged) => Notify(cfg, status, q, n.(key := q.born), now, iconChanged)
    case ClientClose(id) => CloseNotification(cfg, q, id)
    case Close(id, reason) => CloseId(cfg, q, id, reason)
    case Remove(id, reason) => RemoveId(cfg, q, id, reason)
    case CloseAll => HistoryPushAll(cfg, q)
    case Pop => HistoryPop(cfg, q)
    case PopById(id) => HistoryPopById(cfg, q, id)
    case Clear => HistoryClear(q)
    case RemoveFromHistory(id) => HistoryRemoveById(q, id)
    case Act(i) => DoAction(q, i)
    case Choose(id, action) => InvokeAction(q, id, action)
    case Flag(i, locked, closeMark, removeMark) => Flagged(q, i, locked, closeMark, removeMark)
    case Rework(displayed, waiting, history) => Reworked(q, displayed, waiting, history)
    case Refresh(status, time, clock) => Updated(cfg, status, time, clock, q)
  }

  /** Any steps, by clients that may ask for any ids. */
  ghost predicate IsRun(steps: seq<(Settings, Op)>) {
    forall s | s in steps :: Admissible(s.1)
  }

  /** Every client of the run asks for a safe id. */
  ghost predicate AllAskSafely(steps: seq<(Settings, Op)>, q: Queues) {
    || steps == []
    || (AsksSafely(q, steps[0].1) && AllAskSafely(steps[1..], Step(steps[0].0, q, steps[0].1)))
  }

  function Run(steps: seq<(Settings, Op)>, q: Queues): Queues {
    if steps == [] then q else Run(steps[1..], Step(steps[0].0, q, steps[0].1))
  }

  const EMPTY: Queues := Queues([], [], [], 1, 0, [], [])

  /** Nothing is fullscreen, paused, idle or under the mouse. */
  const CALM := Status(false, 0, false, false)

  // ---------- the remaining steps ----------

  lemma UpdateKeeps(cfg: Settings, status: Status, time: int, clock: nat -> int, q: Queues)
    requires Sound(q)
    ensures Keeps(cfg, q, Updated(cfg, status, time, clock, q))
  {
    var s, p := AfterSweep(cfg, status, time, clock, q), AfterPromote(cfg, status, time, clock, q);
    var t := AfterTrim(cfg, status, time, clock, q);
    SweepKeeps(cfg, status, time, clock, q, 0);
    PromoteKeeps(cfg, status, time, Limit(cfg, s), s, 0);
    TrimKeeps(cfg, Limit(cfg, s), p);
    SeepKeeps(cfg, status, time, t);
    KeepsTransitive(cfg, q, s, p);
    KeepsTransitive(cfg, q, p, t);
    KeepsTransitive(cfg, q, t, Seep(cfg, status, time, t));
  }

  lemma SignalDisplayedKeeps(cfg: Settings, q: Queues, d: nat, reason: int)
    requires Sound(q) && d < |q.displayed|
    ensures var n := q.displayed[d];
            Keeps(cfg, q, q.(displayed := q.displayed[d := Signalled(n)], log := LogClosed(q.log, n, reason)))
  {
    var rest, n := q.(displayed := RemoveAt(q.displayed, d)), q.displayed[d];
    var r := q.(displayed := q.displayed[d := Signalled(n)], log := LogClosed(q.log, n, reason));
    assert n in q.displayed;
    forall p, x ensures All(p, x, r) == All(p, x, q) == All(p, x, rest) + One(p, x, n) {
      CountSplit(p, x, q.displayed, d);
      CountUpdate(p, x, q.displayed, d, Signalled(n));
    }
    TakenOut(q, rest, n);
    SignalOther(rest, n, reason);
    assert forall m | m in r.displayed :: m == Signalled(n) || m in rest.displayed;
    KeepsWhen(cfg, q, r);
  }

  lemma SignalWaitingKeeps(cfg: Settings, q: Queues, w: nat, reason: int)
    requires Sound(q) && w < |q.waiting|
    ensures var n := q.waiting[w];
            Keeps(cfg, q, q.(waiting := q.waiting[w := Signalled(n)], log := LogClosed(q.log, n, reason)))
  {
    var rest, n := q.(waiting := RemoveAt(q.waiting, w)), q.waiting[w];
    var r := q.(waiting := q.waiting[w := Signalled(n)], log := LogClosed(q.log, n, reason));
    assert n in q.waiting;
    forall p, x ensures All(p, x, r) == All(p, x, q) == All(p, x, rest) + One(p, x, n) {
      CountSplit(p, x, q.waiting, w);
      CountUpdate(p, x, q.waiting, w, Signalled(n));
    }
    TakenOut(q, rest, n);
    SignalOther(rest, n, reason);
    assert forall m | m in r.waiting :: m == Signalled(n) || m in rest.waiting;
    KeepsWhen(cfg, q, r);
  }

  lemma SignalIdKeeps(cfg: Settings, q: Queues, id: int, reason: int)
    requires Sound(q)
    ensures Keeps(cfg, q, SignalId(q, id, reason))
  {
    var d, w, h := IndexOfId(q.displayed, id), IndexOfId(q.waiting, id), IndexOfId(q.history, id);
    if d < |q.displayed| {
      SignalDisplayedKeeps(cfg, q, d, reason);
    } else if w < |q.waiting| {
      SignalWaitingKeeps(cfg, q, w, reason);
    } else if h < |q.history| {
      assert q.history[h] in q.history;
      assert SignalId(q, id, reason) == q;
    }
  }

  /** Nothing else is the object on screen at `i`. */
  lemma ActingAlone(q: Queues, i: nat)
    requires Sound(q) && i < |q.displayed|
    ensures var n := q.displayed[i];
            && n.key < q.born && n in q.displayed
            && (forall m | m in q.displayed && m.key == n.key :: m == n)
            && (forall m | m in q.waiting || m in q.history :: m.key != n.key)
            && (forall d | d in q.dropped :: d.note.key != n.key)
  {
    var rest, n := q.(displayed := RemoveAt(q.displayed, i)), q.displayed[i];
    forall p, x ensures All(p, x, q) == All(p, x, rest) + One(p, x, n) {
      CountSplit(p, x, q.displayed, i);
    }
    TakenOut(q, rest, n);
    assert forall m | m in q.displayed :: m == n || m in rest.displayed;
  }

  lemma ActionKeeps(cfg: Settings, q: Queues, i: nat, action: string)
    requires Sound(q) && i < |q.displayed|
    ensures Keeps(cfg, q, q.(log := LogAction(q.log, q.displayed[i], action)))
  {
    var n := q.displayed[i];
    var r := q.(log := LogAction(q.log, n, action));
    if n.dbusValid {
      var e := ActionInvoked(n.key, n.id, action);
      ActingAlone(q, i);
      LogStaysOrdered(q.log, e);
      forall m | m in q.displayed || m in q.waiting || m in q.history ensures FlagAgrees(r.log, m) {
        FlagSurvives(q.log, e, m);
      }
      forall d | d in q.dropped ensures LeftProperly(r.log, d) {
        FlagSurvives(q.log, e, d.note);
      }
      forall p, x ensures All(p, x, q) == All(p, x, r) { }
      KeepsWhen(cfg, q, r);
    } else {
      assert r == q;
    }
  }

  lemma DoActionKeeps(cfg: Settings, q: Queues, i: nat)
    requires Sound(q)
    ensures Keeps(cfg, q, DoAction(q, i))
  {
    if i < |q.displayed| && ChosenAction(q.displayed[i]).Some? {
      ActionKeeps(cfg, q, i, ChosenAction(q.displayed[i]).value);
    }
  }

  lemma {:induction false} CountSame(p: Label, x: int, s: seq<Note>, t: seq<Note>)
    requires AllSame(s, t)
    ensures Count(p, x, s) == Count(p, x, t)
  {
    if s != [] { CountSame(p, x, s[1..], t[1..]); }
  }

  lemma SameFlags(log: seq<Event>, s: seq<Note>, t: seq<Note>)
    requires AllSame(s, t) && forall n | n in s :: FlagAgrees(log, n)
    ensures forall n | n in t :: FlagAgrees(log, n)
    ensures (forall n | n in s :: !n.dbusValid) ==> forall n | n in t :: !n.dbusValid
  {
    forall n | n in t ensures FlagAgrees(log, n) && ((forall m | m in s :: !m.dbusValid) ==> !n.dbusValid) {
      var i :| 0 <= i < |t| && t[i] == n;
      assert s[i] in s;
    }
  }

  lemma ReworkedKeeps(cfg: Settings, q: Queues, displayed: seq<Note>, waiting: seq<Note>, history: seq<Note>)
    requires Sound(q)
    ensures Keeps(cfg, q, Reworked(q, displayed, waiting, history))
  {
    var r := Reworked(q, displayed, waiting, history);
    if CanRework(q, displayed, waiting, history) {
      forall p, x ensures All(p, x, q) == All(p, x, r) {
        CountSame(p, x, q.displayed, displayed);
        CountSame(p, x, q.waiting, waiting);
        CountSame(p, x, q.history, history);
      }
      SameFlags(q.log, q.displayed, displayed);
      SameFlags(q.log, q.waiting, waiting);
      SameFlags(q.log, q.history, history);
      KeepsWhen(cfg, q, r);
    }
  }

  lemma HistoryOpsKeep(cfg: Settings, q: Queues, id: int)
    requires Sound(q)
    ensures Keeps(cfg, q, HistoryPop(cfg, q)) && Keeps(cfg, q, HistoryPopById(cfg, q, id))
  {
    if q.history != [] { HistoryPopKeeps(cfg, q, |q.history| - 1); }
    var i := IndexOfId(q.history, id);
    if i < |q.history| { HistoryPopKeeps(cfg, q, i); }
  }

  lemma FlaggedKeeps(cfg: Settings, q: Queues, i: nat, locked: bool, closeMark: nat, removeMark: nat)
    requires Sound(q)
    ensures Keeps(cfg, q, Flagged(q, i, locked, closeMark, removeMark))
  {
    if i < |q.displayed| {
      SetDisplayedKeeps(cfg, q, i,
                        q.displayed[i].(locked := locked, closeMark := closeMark, removeMark := removeMark));
    }
  }

  lemma ChooseKeeps(cfg: Settings, q: Queues, id: int, action: string)
    requires Sound(q)
    ensures Keeps(cfg, q, InvokeAction(q, id, action))
  {
    var i := IndexOfAction(q.displayed, id, action);
    if i < |q.displayed| { ActionKeeps(cfg, q, i, action); }
  }

  lemma ClientCloseKeeps(cfg: Settings, q: Queues, id: int)
    requires Sound(q)
    ensures Keeps(cfg, q, CloseNotification(cfg, q, id))
  {
    CloseIdKeeps(cfg, q, id, REASON_SIG);
    SignalIdKeeps(cfg, q, id, REASON_SIG);
  }

  /** Every operation but an arrival keeps all invariants and conserves every object. */
  lemma QuietStepKeeps(cfg: Settings, q: Queues, op: Op)
    requires Sound(q) && !op.Arrive?
    ensures Keeps(cfg, q, Step(cfg, q, op))
  {
    match op
    case Arrive(_, _, _, _) =>
    case ClientClose(id) => ClientCloseKeeps(cfg, q, id);
    case Close(id, reason) => CloseIdKeeps(cfg, q, id, reason);
    case Remove(id, reason) => RemoveIdKeeps(cfg, q, id, reason);
    case CloseAll => HistoryPushAllKeeps(cfg, q);
    case Pop => HistoryOpsKeep(cfg, q, 0);
    case PopById(id) => HistoryOpsKeep(cfg, q, id);
    case Clear => HistoryClearKeeps(cfg, q);
    case RemoveFromHistory(id) => HistoryRemoveKeeps(cfg, q, id);
    case Act(i) => DoActionKeeps(cfg, q, i);
    case Choose(id, action) => ChooseKeeps(cfg, q, id, action);
    case Rework(displayed, waiting, history) => ReworkedKeeps(cfg, q, displayed, waiting, history);
    case Flag(i, locked, closeMark, removeMark) => FlaggedKeeps(cfg, q, i, locked, closeMark, removeMark);
    case Refresh(status, time, clock) => UpdateKeeps(cfg, status, time, clock, q);
  }

  /** Every single operation keeps the queues sound, and the whole invariant when the id it
      asks for is safe. */
  lemma StepKeeps(cfg: Settings, q: Queues, op: Op)
    requires Sound(q) && Admissible(op)
    ensures var r := Step(cfg, q, op);
            Sound(r) && HistoryFits(cfg, q, r) && (Inv(q) && AsksSafely(q, op) ==> Inv(r))
  {
    if op.Arrive? {
      NotifyKeeps(cfg, op.status, q, op.n.(key := q.born), op.now, op.iconChanged);
    } else {
      QuietStepKeeps(cfg, q, op);
    }
  }

  // ---------- whole runs ----------

  lemma {:induction false} RunKeepsSound(steps: seq<(Settings, Op)>, q: Queues)
    requires IsRun(steps) && Sound(q)
    ensures Sound(Run(steps, q))
    ensures Inv(q) && AllAskSafely(steps, q) ==> Inv(Run(steps, q))
  {
    if steps != [] {
      assert steps[0] in steps;
      StepKeeps(steps[0].0, q, steps[0].1);
      RunKeepsSound(steps[1..], Step(steps[0].0, q, steps[0].1));
    }
  }

  lemma EmptyInv()
    ensures Inv(EMPTY)
  {
  }

  /** The places a notification can be in. */
  datatype Whereabouts = OnScreen | Queued | Archived | LetGo

  ghost predicate IsAt(q: Queues, key: nat, at: Whereabouts, i: nat) {
    match at
    case OnScreen => i < |q.displayed| && q.displayed[i].key == key
    case Queued => i < |q.waiting| && q.waiting[i].key == key
    case Archived => i < |q.history| && q.history[i].key == key
    case LetGo => i < |q.dropped| && q.dropped[i].note.key == key
  }

  lemma CountedAt(s: seq<Note>, key: nat, i: nat)
    requires i < |s| && s[i].key == key
    ensures Count(Key, key, s) >= 1
    ensures Count(Key, key, s) == 1 ==> forall j | 0 <= j < |s| && s[j].key == key :: j == i
  {
    CountSplit(Key, key, s, i);
    forall j | 0 <= j < |s| && s[j].key == key && j != i ensures Count(Key, key, s) >= 2 {
      CountTwice(Key, s, if i < j then i else j, if i < j then j else i);
    }
  }

  lemma CountedAtPlace(q: Queues, key: nat, at: Whereabouts, i: nat)
    requires IsAt(q, key, at, i)
    ensures match at
            case OnScreen => Count(Key, key, q.displayed) >= 1
            case Queued => Count(Key, key, q.waiting) >= 1
            case Archived => Count(Key, key, q.history) >= 1
            case LetGo => Count(Key, key, Notes(q.dropped)) >= 1
  {
    match at
    case OnScreen => CountedAt(q.displayed, key, i);
    case Queued => CountedAt(q.waiting, key, i);
    case Archived => CountedAt(q.history, key, i);
    case LetGo => CountedAt(Notes(q.dropped), key, i);
  }

  lemma FoundSomewhere(q: Queues, key: nat) returns (at: Whereabouts, i: nat)
    requires All(Key, key, q) > 0
    ensures IsAt(q, key, at, i)
  {
    CountAbsent(Key, key, q.displayed);
    CountAbsent(Key, key, q.waiting);
    CountAbsent(Key, key, q.history);
    CountAbsent(Key, key, Notes(q.dropped));
    if n :| n in q.displayed && n.key == key {
      at := OnScreen;
      i :| 0 <= i < |q.displayed| && q.displayed[i] == n;
    } else if n :| n in q.waiting && n.key == key {
      at := Queued;
      i :| 0 <= i < |q.waiting| && q.waiting[i] == n;
    } else if n :| n in q.history && n.key == key {
      at := Archived;
      i :| 0 <= i < |q.history| && q.history[i] == n;
    } else {
      at := LetGo;
      var n :| n in Notes(q.dropped) && n.key == key;
      i :| 0 <= i < |q.dropped| && Notes(q.dropped)[i] == n;
    }
  }

  lemma OnePosition(q: Queues, key: nat, at: Whereabouts, i: nat, at': Whereabouts, i': nat)
    requires All(Key, key, q) <= 1 && IsAt(q, key, at, i) && IsAt(q, key, at', i')
    ensures at == at' && i == i'
  {
    CountedAtPlace(q, key, at, i);
    CountedAtPlace(q, key, at', i');
    if at == at' {
      match at
      case OnScreen => CountedAt(q.displayed, key, i);
      case Queued => CountedAt(q.waiting, key, i);
      case Archived => CountedAt(q.history, key, i);
      case LetGo => CountedAt(Notes(q.dropped), key, i);
    }
  }

  /** Conservation over whole runs, whatever ids clients ask for: every notification that ever
      arrived is in exactly one queue, at one position, or was let go for one named cause. */
  lemma EveryNotificationIsInOnePlace(steps: seq<(Settings, Op)>, key: nat)
    requires IsRun(steps)
    ensures key < Run(steps, EMPTY).born <==> exists at, i :: IsAt(Run(steps, EMPTY), key, at, i)
    ensures forall at, i, at', i' | IsAt(Run(steps, EMPTY), key, at, i) && IsAt(Run(steps, EMPTY), key, at', i') ::
              at == at' && i == i'
  {
    var q := Run(steps, EMPTY);
    EmptyInv();
    RunKeepsSound(steps, EMPTY);
    assert All(Key, key, q) == if key < q.born then 1 else 0;
    if key < q.born {
      var at, i := FoundSomewhere(q, key);
    }
    forall at, i | IsAt(q, key, at, i) ensures key < q.born {
      CountedAtPlace(q, key, at, i);
    }
    forall at, i, at', i' | IsAt(q, key, at, i) && IsAt(q, key, at', i') ensures at == at' && i == i' {
      OnePosition(q, key, at, i, at', i');
    }
  }

  /** Ids over whole runs: no id is held by two notifications of the three queues, and so
      no close request ever loses one of two holders. */
  lemma IdsStayDistinct(steps: seq<(Settings, Op)>)
    requires IsRun(steps) && AllAskSafely(steps, EMPTY)
    ensures var q := Run(steps, EMPTY);
            var s := q.displayed + q.waiting + q.history;
            && (forall i, j | 0 <= i < j < |s| :: s[i].id != s[j].id)
            && (forall i | 0 <= i < |s| :: 0 < s[i].id <= q.nextId)
            && (forall d | d in q.dropped :: d.cause != Shadowed)
  {
    var q := Run(steps, EMPTY);
    var s := q.displayed + q.waiting + q.history;
    EmptyInv();
    RunKeepsSound(steps, EMPTY);
    forall x ensures Count(Id, x, s) == Live(Id, x, q) {
      CountConcat(Id, x, q.displayed + q.waiting, q.history);
      CountConcat(Id, x, q.displayed, q.waiting);
    }
    forall i | 0 <= i < |s| ensures 0 < s[i].id <= q.nextId {
      CountSplit(Id, s[i].id, s, i);
      assert Live(Id, s[i].id, q) >= 1;
    }
    forall i, j | 0 <= i < j < |s| ensures s[i].id != s[j].id {
      assert Live(Id, s[i].id, q) <= 1;
      if s[i].id == s[j].id {
        CountTwice(Id, s, i, j);
      }
    }
  }

  ghost function ClosedCount(log: seq<Event>, key: nat): nat {
    if log == [] then 0
    else (if log[0].Closed? && log[0].key == key then 1 else 0) + ClosedCount(log[1..], key)
  }

  lemma {:induction false} ClosedCountIsFlag(log: seq<Event>, key: nat)
    requires ClosedIsLast(log)
    ensures ClosedCount(log, key) == if WasClosed(log, key) then 1 else 0
  {
    if log != [] {
      var rest := log[1..];
      assert log == [log[0]] + rest;
      assert ClosedIsLast(rest) by {
        forall i, j | 0 <= i < j < |rest| && rest[i].Closed? ensures rest[j].key != rest[i].key {
          assert log[i + 1].key != log[j + 1].key;
        }
      }
      ClosedCountIsFlag(rest, key);
      assert WasClosed(log, key) <==> WasClosed(rest, key) || (log[0].Closed? && log[0].key == key) by {
        if WasClosed(rest, key) {
          var e :| e in rest && e.Closed? && e.key == key;
          assert e in log;
        }
        if log[0].Closed? && log[0].key == key { assert log[0] in log; }
      }
      forall j | 0 <= j < |rest| && log[0].Closed? ensures rest[j].key != log[0].key {
        assert log[j + 1] == rest[j];
      }
    }
  }

  /** Signals over whole runs: one NotificationClosed at most for each notification and
      nothing about it afterwards; everything in history, and everything shown again from
      there, is closed on the bus and has no actions left; and a notification that came
      over the bus has been signalled exactly once when it is in history or was let go for
      any other reason than giving up its slot or being lost under a second holder of its id. */
  lemma ClosedExactlyOnce(steps: seq<(Settings, Op)>, key: nat)
    requires IsRun(steps)
    ensures var q := Run(steps, EMPTY);
            && ClosedCount(q.log, key) <= 1
            && ClosedIsLast(q.log)
            && (forall n | n in q.history :: !n.dbusValid && n.actions == {})
            && (forall n | n in q.history && n.fromBus && n.key == key :: ClosedCount(q.log, key) == 1)
            && (forall n | (n in q.displayed || n in q.waiting) && n.redisplayed :: !n.dbusValid && n.actions == {})
            && (forall n | (n in q.displayed || n in q.waiting) && n.dbusValid && n.key == key ::
                  ClosedCount(q.log, key) == 0)
            && (forall d | d in q.dropped && d.cause != Replaced && d.cause != Shadowed && d.note.fromBus
                           && d.note.key == key :: ClosedCount(q.log, key) == 1)
  {
    EmptyInv();
    RunKeepsSound(steps, EMPTY);
    ClosedCountIsFlag(Run(steps, EMPTY).log, key);
  }

  /** History over runs under settings with one positive history_length. */
  lemma {:induction false} HistoryStaysWithin(steps: seq<(Settings, Op)>, q: Queues, length: nat)
    requires IsRun(steps) && Sound(q)
    requires 0 < length && |q.history| <= length
    requires forall s | s in steps :: s.0.historyLength == length
    ensures |Run(steps, q).history| <= length
  {
    if steps != [] {
      var r := Step(steps[0].0, q, steps[0].1);
      StepKeeps(steps[0].0, q, steps[0].1);
      assert steps[0] in steps;
      HistoryStaysWithin(steps[1..], r, length);
    }
  }
}
