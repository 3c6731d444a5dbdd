/** What goes wrong when one id is live twice: runs in which a client asks for the id of a
    notification that sits in history. */
module Shadowing {
  import opened Notifications
  import opened SortedQueue
  import opened QueueSpec
  import opened Arrival
  import opened Update
  import opened Runs

  const STILL: nat -> int := _ => 0
  const LATER: nat -> int := _ => 10

  /** A notification that came over the bus. */
  function Sent(key: nat, id: int, timeout: int): Note {
    Note(key, id, 1, 0, 0, timeout, false, 0, FsShow, false, false, false, false, 0, 0, true, true, {}, "default", 0,
         Content("text", "app", "text", "", "", -1, IconOff, None, None))
  }

  /** The first one, which is sticky, closed and brought back. */
  function Brought(): Note {
    Sent(0, 2, 0).(dbusValid := false, redisplayed := true)
  }

  /** The second one, which is to expire. */
  function Second(): Note {
    Sent(1, 2, 5)
  }

  /** A notification arrives and is closed, and another client takes its id. */
  function Taking(cfg: Settings): seq<(Settings, Op)> {
    [(cfg, Arrive(CALM, Sent(0, 0, 0), 0, {})), (cfg, Close(2, REASON_USER)), (cfg, Arrive(CALM, Sent(0, 2, 5), 0, {}))]
  }

  /** The second is shown, the first is brought back from history, and the id is closed. */
  function Ending(cfg: Settings): seq<(Settings, Op)> {
    [(cfg, Refresh(CALM, 0, STILL)), (cfg, Pop), (cfg, Close(2, REASON_USER))]
  }

  /** The same, but the first is shown too, until the second should expire. */
  function Showing(cfg: Settings): seq<(Settings, Op)> {
    [(cfg, Refresh(CALM, 0, STILL)), (cfg, Pop), (cfg, Refresh(CALM, 0, STILL))] + [(cfg, Refresh(CALM, 10, LATER))]
  }

  /** The queues after each step. */
  function After(k: nat): Queues {
    var first, second := Sent(0, 2, 0), Second();
    var filed, log := first.(dbusValid := false), [Closed(0, 2, REASON_USER)];
    if k == 0 then EMPTY
    else if k == 1 then Queues([first], [], [], 2, 1, [], [])
    else if k == 2 then Queues([], [], [filed], 2, 1, [], log)
    else if k == 3 then Queues([second], [], [filed], 2, 2, [], log)
    else if k == 4 then Queues([], [second], [filed], 2, 2, [], log)
    else if k == 5 then Queues([Brought()], [second], [], 2, 2, [], log)
    else if k == 6 then Queues([], [], [Brought()], 2, 2, [Dropped(second, Shadowed)], log)
    else if k == 7 then Queues([], [Brought(), second], [], 2, 2, [], log)
    else Queues([], [second], [Brought()], 2, 2, [], log)
  }

  lemma ArriveFirst(cfg: Settings)
    ensures Step(cfg, After(0), Arrive(CALM, Sent(0, 0, 0), 0, {})) == After(1)
  {
    NotifyInserts(cfg, CALM, EMPTY, Sent(0, 0, 0), 0, {});
  }

  lemma CloseFirst(cfg: Settings)
    ensures Step(cfg, After(1), Close(2, REASON_USER)) == After(2)
  {
    var q := After(1);
    assert IndexOfId(q.waiting, 2) == 0 && RemoveAt(q.waiting, 0) == [];
    assert Signalled(q.waiting[0]) == q.waiting[0].(dbusValid := false);
  }

  lemma ArriveSecond(cfg: Settings)
    ensures Step(cfg, After(2), Arrive(CALM, Sent(0, 2, 5), 0, {})) == After(3)
  {
    NotifyInserts(cfg, CALM, After(2), Second(), 0, {});
  }

  lemma ShowSecond(cfg: Settings)
    ensures Step(cfg, After(3), Refresh(CALM, 0, STILL)) == After(4)
  {
    var q, r := After(3), After(4);
    assert AfterSweep(cfg, CALM, 0, STILL, q) == q;
    assert RemoveAt(q.waiting, 0) == [] && ToDisplayed(cfg, q, 0, 0) == r;
    assert PromoteStep(cfg, CALM, 0, q, 0) == (r, 0);
    assert Limit(cfg, q) >= 1;
    assert AfterPromote(cfg, CALM, 0, STILL, q) == r;
    assert AfterTrim(cfg, CALM, 0, STILL, q) == r;
    assert !Seeps(cfg, CALM, r);
  }

  lemma BringFirst(cfg: Settings)
    ensures Step(cfg, After(4), Pop) == After(5)
  {
    var q := After(4);
    assert RemoveAt(q.history, 0) == [] && Redisplayed(cfg, q.history[0]) == Brought();
  }

  lemma LoseSecond(cfg: Settings)
    ensures Step(cfg, After(5), Close(2, REASON_USER)) == After(6)
  {
    var q := After(5);
    assert IndexOfId(q.displayed, 2) == 0 && IndexOfId(q.waiting, 2) == 0;
    assert RemoveAt(q.displayed, 0) == [] && RemoveAt(q.waiting, 0) == [];
  }

  lemma RunOn(step: (Settings, Op), rest: seq<(Settings, Op)>, q: Queues, r: Queues, end: Queues)
    requires Step(step.0, q, step.1) == r && Run(rest, r) == end
    ensures Run([step] + rest, q) == end
  {
    assert ([step] + rest)[1..] == rest;
  }

  lemma RunThree(a: (Settings, Op), b: (Settings, Op), c: (Settings, Op), rest: seq<(Settings, Op)>,
                 q0: Queues, q1: Queues, q2: Queues, q3: Queues, end: Queues)
    requires Step(a.0, q0, a.1) == q1 && Step(b.0, q1, b.1) == q2 && Step(c.0, q2, c.1) == q3 && Run(rest, q3) == end
    ensures Run([a, b, c] + rest, q0) == end
  {
    RunOn(c, rest, q2, q3, end);
    RunOn(b, [c] + rest, q1, q2, end);
    RunOn(a, [b] + ([c] + rest), q0, q1, end);
    assert [a, b, c] + rest == [a] + ([b] + ([c] + rest));
  }

  lemma LosingEnds(cfg: Settings)
    ensures Run(Ending(cfg), After(3)) == After(6)
  {
    var s := Ending(cfg);
    ShowSecond(cfg);
    BringFirst(cfg);
    LoseSecond(cfg);
    RunThree(s[0], s[1], s[2], [], After(3), After(4), After(5), After(6), After(6));
    assert s == [s[0], s[1], s[2]] + [];
  }

  lemma TakingRuns(cfg: Settings, rest: seq<(Settings, Op)>, end: Queues)
    requires Run(rest, After(3)) == end
    ensures Run(Taking(cfg) + rest, EMPTY) == end
  {
    var s := Taking(cfg);
    ArriveFirst(cfg);
    CloseFirst(cfg);
    ArriveSecond(cfg);
    RunThree(s[0], s[1], s[2], rest, EMPTY, After(1), After(2), After(3), end);
    assert s == [s[0], s[1], s[2]];
  }

  /** Until the third step of such a run every id is safe; there a client asks for one that is
      held in history. */
  lemma TakesUnsafely(cfg: Settings)
    ensures AllAskSafely(Taking(cfg)[..2], EMPTY) && !AsksSafely(After(2), Taking(cfg)[2].1)
    ensures Run(Taking(cfg)[..2], EMPTY) == After(2)
  {
    var s := Taking(cfg)[..2];
    ArriveFirst(cfg);
    CloseFirst(cfg);
    assert s == [s[0]] + ([s[1]] + []) && s[1..] == [s[1]] + [] && s[1..][1..] == [];
    RunOn(s[1], [], After(1), After(2), After(2));
    RunOn(s[0], [s[1]] + [], EMPTY, After(1), After(2));
    assert AllAskSafely(s[1..], After(1));
  }

  /** A run in which only one arrival asks for an unsafe id. At the end the second notification
      is gone from every queue, and its client was never told. */
  lemma SecondHolderIsLost(cfg: Settings)
    ensures IsRun(Taking(cfg) + Ending(cfg))
    ensures var q := Run(Taking(cfg) + Ending(cfg), EMPTY);
            && q.displayed == [] && q.waiting == [] && q.history == [Brought()]
            && q.dropped == [Dropped(Second(), Shadowed)]
            && Second().dbusValid && ClosedCount(q.log, Second().key) == 0
  {
    LosingEnds(cfg);
    TakingRuns(cfg, Ending(cfg), After(6));
    var log := After(6).log;
    assert log[1..] == [] && log[0].key == 0;
  }

  lemma ShowBoth(cfg: Settings)
    requires cfg.notificationLimit != 1
    ensures Step(cfg, After(5), Refresh(CALM, 0, STILL)) == After(7)
  {
    var q, r := After(5), After(7);
    assert SetDisplayed(q, 0, Second()) == q;
    assert SweepUnmarked(cfg, CALM, 0, STILL, q, 0) == (q, 1);
    assert SweepStep(cfg, CALM, 0, STILL, q, 0) == (q, 1);
    assert Sweep(cfg, CALM, 0, STILL, q, 1) == q;
    assert AfterSweep(cfg, CALM, 0, STILL, q) == q;
    assert Cmp(cfg, Second(), Brought()) == 0;
    assert RemoveAt(q.waiting, 0) == [] && ToDisplayed(cfg, q, 0, 0) == r;
    assert PromoteStep(cfg, CALM, 0, q, 0) == (r, 0);
    assert AfterPromote(cfg, CALM, 0, STILL, q) == r;
    assert AfterTrim(cfg, CALM, 0, STILL, q) == r;
    assert !Seeps(cfg, CALM, r);
  }

  lemma SweepsWrongOne(cfg: Settings)
    ensures AfterSweep(cfg, CALM, 10, LATER, After(7)) == After(8)
  {
    var q, r := After(7), After(8);
    assert SetDisplayed(q, 0, Brought()) == q;
    assert SweepUnmarked(cfg, CALM, 10, LATER, q, 0) == (q, 1);
    assert SweepStep(cfg, CALM, 10, LATER, q, 0) == (q, 1);
    assert IndexOfId(q.displayed, 2) == 0 && RemoveAt(q.displayed, 0) == [Second()];
    assert CloseId(cfg, q, 2, REASON_TIME) == r;
    assert SweepStep(cfg, CALM, 10, LATER, q, 1) == (r, 1);
    assert Sweep(cfg, CALM, 10, LATER, r, 1) == r;
  }

  lemma RestsAlone(cfg: Settings, s: Queues)
    requires s.waiting == [] && |s.displayed| <= 1
    ensures Promote(cfg, CALM, 10, Limit(cfg, s), s, 0) == s && Trim(cfg, Limit(cfg, s), s) == s
    ensures Seep(cfg, CALM, 10, s) == s
  {
    assert !Seeps(cfg, CALM, s);
  }

  lemma ClosesWrongOne(cfg: Settings)
    ensures Step(cfg, After(7), Refresh(CALM, 10, LATER)) == After(8)
  {
    SweepsWrongOne(cfg);
    RestsAlone(cfg, After(8));
    UpdateRests(cfg, After(7), After(8));
  }

  lemma UpdateRests(cfg: Settings, q: Queues, s: Queues)
    requires s == AfterSweep(cfg, CALM, 10, LATER, q)
    requires Promote(cfg, CALM, 10, Limit(cfg, s), s, 0) == s && Trim(cfg, Limit(cfg, s), s) == s
    requires Seep(cfg, CALM, 10, s) == s
    ensures Updated(cfg, CALM, 10, LATER, q) == s
  {
  }

  lemma ShowingRuns(cfg: Settings)
    requires cfg.notificationLimit != 1
    ensures Run(Showing(cfg), After(3)) == After(8)
  {
    var s := Showing(cfg);
    ShowSecond(cfg);
    BringFirst(cfg);
    ShowBoth(cfg);
    ClosesWrongOne(cfg);
    RunOn(s[3], [], After(7), After(8), After(8));
    RunThree(s[0], s[1], s[2], [s[3]] + [], After(3), After(4), After(5), After(7), After(8));
    assert s == [s[0], s[1], s[2]] + ([s[3]] + []);
  }

  lemma ShowingIsRun(cfg: Settings)
    ensures IsRun(Taking(cfg) + Showing(cfg))
  {
  }

  /** With two displayed holders of one id, an update closes the first of them instead of the one
      whose time is up: here the sticky one goes, and the overdue one stays on screen. */
  lemma OverdueStays(cfg: Settings)
    requires cfg.notificationLimit != 1
    ensures IsRun(Taking(cfg) + Showing(cfg))
    ensures Run(Taking(cfg) + Showing(cfg), EMPTY) == After(8)
    ensures Brought().timeout == 0 && IsFinished(Second(), CALM, 10) && After(8).displayed == [Second()]
  {
    ShowingIsRun(cfg);
    ShowingRuns(cfg);
    TakingRuns(cfg, Showing(cfg), After(8));
  }
}
