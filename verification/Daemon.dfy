/** The main loop (src/dunst.c): one timer, set anew by every run, and how late an expired
    notification can be. */
module Daemon {
  import opened Notifications
  import Spec = QueueSpec
  import opened Update
  import opened SortedQueue
  import opened Conservation
  import opened Distinct
  import opened Runs
  import opened Scheduling
  import opened Wakeup

  /** The clock, the queues, the GLib timeout sources by id with the time they fire, the
      static `next_timeout_id`, and the last source id handed out. */
  datatype State = State(now: int, queues: Spec.Queues, timers: map<nat, int>, nextTimeoutId: nat, lastSource: nat)

  /** The delay handed to `g_timeout_add`, which counts whole milliseconds, at least one. */
  function Delay(timeoutAt: int, now: int): int {
    var sleep := if timeoutAt - now < 1000 then 1000 else timeoutAt - now;
    sleep / 1000 * 1000
  }

  /** The timer handling of `run`, on updated queues: `fired` is the source being
      dispatched, or nothing for a wake-up; `later` is the second reading of the clock. */
  function SetTimer(cfg: Settings, later: int, fired: Option<nat>, d: State): State {
    var kept := if fired.None? && d.nextTimeoutId != 0 then d.timers - {d.nextTimeoutId} else d.timers;
    var gone := if fired.Some? then {fired.value} else {};
    var at := NextDatachange(cfg, d.queues.displayed, d.now);
    if d.queues.displayed == [] || at == -1 then
      State(later, d.queues, kept - gone, 0, d.lastSource)
    else
      var id := d.lastSource + 1;
      State(later, d.queues, kept[id := later + Delay(at, later)] - gone, id, id)
  }

  /** `run` */
  ghost function AfterRun(cfg: Settings, status: Status, clock: nat -> int, later: int, fired: Option<nat>,
                          d: State): State
  {
    SetTimer(cfg, later, fired, d.(queues := Updated(cfg, status, d.now, clock, d.queues)))
  }

  /** Everything between runs: time passes, requests change the queues and wake the loop,
      or the timer fires. */
  datatype Event =
    | Wait(until: int)
    | WakeUp(queues: Spec.Queues, cfg: Settings, status: Status, clock: nat -> int, later: int)
    | Fire(source: nat, cfg: Settings, status: Status, clock: nat -> int, later: int)

  /** Timers are ideal: time never passes a pending one. A run takes at most `lag`. */
  ghost predicate CanHappen(lag: nat, d: State, e: Event) {
    match e
    case Wait(until) => d.now <= until && forall s | s in d.timers :: until <= d.timers[s]
    case WakeUp(q, cfg, _, clock, later) =>
      && d.now <= later <= d.now + lag && 0 <= d.now < INT64_MAX && forall k :: d.now <= clock(k)
    case Fire(source, cfg, _, clock, later) =>
      && source in d.timers && d.timers[source] <= d.now
      && d.now <= later <= d.now + lag && 0 <= d.now < INT64_MAX && forall k :: d.now <= clock(k)
  }

  ghost function Happen(lag: nat, d: State, e: Event): State
    requires CanHappen(lag, d, e)
  {
    match e
    case Wait(until) => d.(now := until)
    case WakeUp(q, cfg, status, clock, later) =>
      AfterRun(cfg, status, clock, later, None, d.(queues := q))
    case Fire(source, cfg, status, clock, later) =>
      AfterRun(cfg, status, clock, later, Some(source), d)
  }

  /** At most one timer, and `next_timeout_id` names it. */
  ghost predicate OneTimer(d: State) {
    && d.timers.Keys == (if d.nextTimeoutId == 0 then {} else {d.nextTimeoutId})
    && d.nextTimeoutId <= d.lastSource
  }

  /** The timer fires in time for everything displayed that can expire. */
  ghost predicate TimerCovers(lag: nat, d: State) {
    && (forall s | s in d.timers :: d.now <= d.timers[s])
    && (forall n | n in d.queues.displayed && Expires(n) && n.start + n.timeout < INT64_MAX ::
          exists s :: s in d.timers && d.timers[s] <= n.start + n.timeout + 1000 + lag)
  }

  lemma DelayBounds(timeoutAt: int, now: int)
    ensures Delay(timeoutAt, now) >= 1000
    ensures Delay(timeoutAt, now) <= 1000 || now + Delay(timeoutAt, now) <= timeoutAt
  {
  }

  /** One run leaves at most one timer, named by `next_timeout_id`. */
  lemma RunKeepsOneTimer(cfg: Settings, status: Status, clock: nat -> int, later: int, fired: Option<nat>, d: State)
    requires OneTimer(d)
    requires fired.Some? ==> fired.value in d.timers
    ensures OneTimer(AfterRun(cfg, status, clock, later, fired, d))
  {
    var r := AfterRun(cfg, status, clock, later, fired, d);
    var kept := if fired.None? && d.nextTimeoutId != 0 then d.timers - {d.nextTimeoutId} else d.timers;
    assert kept.Keys == (if fired.None? then {} else d.timers.Keys);
    if r.nextTimeoutId == 0 {
      assert r.timers.Keys == {};
    } else {
      assert r.timers.Keys == {r.nextTimeoutId};
    }
  }

  /** The timer a run sets comes soon enough. */
  lemma RunCovers(cfg: Settings, status: Status, clock: nat -> int, later: int, fired: Option<nat>, d: State, lag: nat)
    requires OnceOnScreen(d.queues) && OneTimer(d)
    requires fired.Some? ==> fired.value in d.timers
    requires d.now <= later <= d.now + lag && 0 <= d.now < INT64_MAX && forall k :: d.now <= clock(k)
    ensures TimerCovers(lag, AfterRun(cfg, status, clock, later, fired, d))
  {
    var r := AfterRun(cfg, status, clock, later, fired, d);
    var at := NextDatachange(cfg, r.queues.displayed, d.now);
    RunKeepsOneTimer(cfg, status, clock, later, fired, d);
    UpdateLeavesFit(cfg, status, d.now, clock, d.queues);
    NextDatachangeIsExact(cfg, r.queues.displayed, d.now);
    DelayBounds(at, later);
    forall n | n in r.queues.displayed && Expires(n) && n.start + n.timeout < INT64_MAX
      ensures exists s :: s in r.timers && r.timers[s] <= n.start + n.timeout + 1000 + lag
    {
      assert Fit(n, status, d.now);
      assert IsEvent(cfg, n, d.now, n.start + n.timeout);
      assert HasEvent(cfg, r.queues.displayed, d.now, n.start + n.timeout);
      assert r.nextTimeoutId in r.timers;
    }
  }

  /** Something about `n` on screen is due at `x`, seen from `time`: it expires, now if its time is
      already up; or its age text appears, and from then on moves with every full second. */
  predicate IsDue(cfg: Settings, n: Note, time: int, x: int) {
    || (n.timeout > 0 && !n.locked && x == if n.start + n.timeout <= time then time else n.start + n.timeout)
    || (cfg.showAgeThreshold >= 0
        && x == if time > n.timestamp + cfg.showAgeThreshold - 1_000_000 then (time / 1_000_000 + 1) * 1_000_000
                else n.timestamp + cfg.showAgeThreshold)
  }

  lemma DueIsEvent(cfg: Settings, n: Note, time: int, x: int)
    requires 0 <= time
    ensures IsDue(cfg, n, time, x) <==> IsEvent(cfg, n, time, x)
  {
  }

  /** The earliest of them, if there is one before the end of the 64-bit clock. */
  ghost predicate IsFirstDue(cfg: Settings, s: seq<Note>, time: int, x: int) {
    && x < 0x7FFF_FFFF_FFFF_FFFF
    && (exists n :: n in s && IsDue(cfg, n, time, x))
    && (forall n, y | n in s && IsDue(cfg, n, time, y) :: x <= y)
  }

  lemma DueIsHasEvent(cfg: Settings, s: seq<Note>, time: int, x: int)
    requires 0 <= time
    ensures HasEvent(cfg, s, time, x) <==> exists n :: n in s && IsDue(cfg, n, time, x)
    ensures HasEvent(cfg, s, time, x) ==> time <= x
  {
    if HasEvent(cfg, s, time, x) {
      var n :| n in s && IsEvent(cfg, n, time, x);
      EventsNotBefore(cfg, n, time, x);
      DueIsEvent(cfg, n, time, x);
    }
    if n :| n in s && IsDue(cfg, n, time, x) {
      DueIsEvent(cfg, n, time, x);
      assert IsEvent(cfg, n, time, x);
    }
  }

  lemma FirstDueIsNext(cfg: Settings, s: seq<Note>, time: int, x: int)
    requires 0 <= time < INT64_MAX
    ensures IsFirstDue(cfg, s, time, x) <==> x != -1 && NextDatachange(cfg, s, time) == x
    ensures IsFirstDue(cfg, s, time, x) ==> time <= x
  {
    var r := NextDatachange(cfg, s, time);
    NextDatachangeIsExact(cfg, s, time);
    forall y ensures HasEvent(cfg, s, time, y) <==> exists n :: n in s && IsDue(cfg, n, time, y)
             ensures HasEvent(cfg, s, time, y) ==> time <= y {
      DueIsHasEvent(cfg, s, time, y);
    }
    if IsFirstDue(cfg, s, time, x) {
      assert HasEvent(cfg, s, time, x);
    }
    if r == x && x != -1 {
      NextIsBelowEnd(cfg, s, time);
      forall n, y | n in s && IsDue(cfg, n, time, y) ensures x <= y { assert HasEvent(cfg, s, time, y); }
    }
  }

  lemma NextIsBelowEnd(cfg: Settings, s: seq<Note>, time: int)
    requires 0 <= time < INT64_MAX
    ensures NextDatachange(cfg, s, time) < INT64_MAX
  {
    NextFromIsMinimum(cfg, s, time, INT64_MAX);
  }

  lemma SleepIsWholeMilliseconds(x: int, later: int)
    ensures var t := later + Delay(x, later);
            (t - later) % 1000 == 0 && if x >= later + 1000 then x - 1000 < t <= x else t == later + 1000
  {
  }

  /** The timer of a run is exact to the millisecond. With something due on screen, first at `x`,
      one timer is left, whole milliseconds away. It fires within the millisecond before `x`, or one from now
      when `x` is nearer than that; with nothing on screen or nothing due, no timer is left. */
  lemma TimerIsExact(cfg: Settings, status: Status, clock: nat -> int, later: int, fired: Option<nat>, d: State)
    requires OneTimer(d) && 0 <= d.now < INT64_MAX
    requires fired.Some? ==> fired.value in d.timers
    ensures var r := AfterRun(cfg, status, clock, later, fired, d);
            r.now == later &&
            forall x | IsFirstDue(cfg, r.queues.displayed, d.now, x) ::
              && |r.timers| == 1 && r.nextTimeoutId in r.timers
              && (r.timers[r.nextTimeoutId] - later) % 1000 == 0
              && (if x >= later + 1000 then x - 1000 < r.timers[r.nextTimeoutId] <= x
                  else r.timers[r.nextTimeoutId] == later + 1000)
    ensures var r := AfterRun(cfg, status, clock, later, fired, d);
            (forall x :: !IsFirstDue(cfg, r.queues.displayed, d.now, x)) ==> r.timers == map[]
  {
    var r := AfterRun(cfg, status, clock, later, fired, d);
    var at := NextDatachange(cfg, r.queues.displayed, d.now);
    RunKeepsOneTimer(cfg, status, clock, later, fired, d);
    forall x ensures IsFirstDue(cfg, r.queues.displayed, d.now, x) <==> x != -1 && at == x {
      FirstDueIsNext(cfg, r.queues.displayed, d.now, x);
    }
    if r.queues.displayed != [] && at != -1 {
      assert IsFirstDue(cfg, r.queues.displayed, d.now, at);
      assert r.timers.Keys == {r.nextTimeoutId};
      assert |r.timers| == |r.timers.Keys|;
      SleepIsWholeMilliseconds(at, later);
    } else {
      assert r.timers.Keys == {};
      assert r.timers == map[];
    }
  }

  ghost predicate IsTimeline(lag: nat, d: State, events: seq<Event>)
    decreases |events|
  {
    events == [] || (CanHappen(lag, d, events[0]) && IsTimeline(lag, Happen(lag, d, events[0]), events[1..]))
  }

  ghost function Play(lag: nat, d: State, events: seq<Event>): State
    requires IsTimeline(lag, d, events)
    decreases |events|
  {
    if events == [] then d else Play(lag, Happen(lag, d, events[0]), events[1..])
  }

  /** The queues a run updates. */
  function ToUpdate(d: State, e: Event): Spec.Queues {
    if e.WakeUp? then e.queues else d.queues
  }

  /** At every run no two notifications on screen share an id. */
  ghost predicate OnceAtRuns(lag: nat, d: State, events: seq<Event>)
    requires IsTimeline(lag, d, events)
    decreases |events|
  {
    || events == []
    || (&& (!events[0].Wait? ==> OnceOnScreen(ToUpdate(d, events[0])))
        && OnceAtRuns(lag, Happen(lag, d, events[0]), events[1..]))
  }

  lemma HappenKeepsOneTimer(lag: nat, d: State, e: Event)
    requires OneTimer(d) && CanHappen(lag, d, e)
    ensures OneTimer(Happen(lag, d, e))
  {
    match e
    case Wait(_) =>
    case WakeUp(q, cfg, status, clock, later) =>
      RunKeepsOneTimer(cfg, status, clock, later, None, d.(queues := q));
    case Fire(source, cfg, status, clock, later) =>
      RunKeepsOneTimer(cfg, status, clock, later, Some(source), d);
  }

  lemma {:induction false} TimelineKeepsOneTimer(lag: nat, d: State, events: seq<Event>)
    requires OneTimer(d) && IsTimeline(lag, d, events)
    ensures OneTimer(Play(lag, d, events))
    decreases |events|
  {
    if events != [] {
      HappenKeepsOneTimer(lag, d, events[0]);
      TimelineKeepsOneTimer(lag, Happen(lag, d, events[0]), events[1..]);
    }
  }

  lemma HappenCovers(lag: nat, d: State, e: Event)
    requires OneTimer(d) && TimerCovers(lag, d) && CanHappen(lag, d, e)
    requires !e.Wait? ==> OnceOnScreen(ToUpdate(d, e))
    ensures TimerCovers(lag, Happen(lag, d, e))
  {
    match e
    case Wait(_) =>
    case WakeUp(q, cfg, status, clock, later) => RunCovers(cfg, status, clock, later, None, d.(queues := q), lag);
    case Fire(source, cfg, status, clock, later) => RunCovers(cfg, status, clock, later, Some(source), d, lag);
  }

  lemma {:induction false} TimelineKeeps(lag: nat, d: State, events: seq<Event>)
    requires OneTimer(d) && TimerCovers(lag, d) && IsTimeline(lag, d, events) && OnceAtRuns(lag, d, events)
    ensures TimerCovers(lag, Play(lag, d, events))
    decreases |events|
  {
    if events != [] {
      HappenKeepsOneTimer(lag, d, events[0]);
      HappenCovers(lag, d, events[0]);
      TimelineKeeps(lag, Happen(lag, d, events[0]), events[1..]);
    }
  }

  /** From the start of the daemon, under any sequence of waiting, wake-ups and timer runs, and
      whatever the queues hold: at most one timer exists and `next_timeout_id` names it. */
  lemma AtMostOneTimer(lag: nat, start: int, events: seq<Event>)
    requires IsTimeline(lag, State(start, EMPTY, map[], 0, 0), events)
    ensures var d := Play(lag, State(start, EMPTY, map[], 0, 0), events);
            |d.timers| <= 1 && (d.nextTimeoutId != 0 ==> d.nextTimeoutId in d.timers)
  {
    var d0 := State(start, EMPTY, map[], 0, 0);
    var d := Play(lag, d0, events);
    TimelineKeepsOneTimer(lag, d0, events);
    assert |d.timers.Keys| <= 1;
    assert |d.timers| == |d.timers.Keys|;
  }

  /** Bounded expiry over whole runs: where no two notifications on screen share an id, an
      unlocked one with a positive timeout is never still on screen later than one millisecond
      after its time is up, plus what a run takes. */
  lemma ExpiryIsBounded(lag: nat, start: int, events: seq<Event>)
    requires IsTimeline(lag, State(start, EMPTY, map[], 0, 0), events)
    requires OnceAtRuns(lag, State(start, EMPTY, map[], 0, 0), events)
    ensures var d := Play(lag, State(start, EMPTY, map[], 0, 0), events);
            forall n | n in d.queues.displayed && n.timeout > 0 && !n.locked && n.start + n.timeout < INT64_MAX ::
              d.now <= n.start + n.timeout + 1000 + lag
  {
    TimelineKeeps(lag, State(start, EMPTY, map[], 0, 0), events);
  }

  /** It is enough that at every wake-up no two of the displayed and waiting ones share an id. */
  lemma {:induction false} WakeUpsDecide(lag: nat, d: State, events: seq<Event>)
    requires IsTimeline(lag, d, events) && Once(Id, d.queues)
    requires forall e | e in events && e.WakeUp? :: Once(Id, e.queues)
    ensures OnceAtRuns(lag, d, events)
    decreases |events|
  {
    if events != [] {
      var e := events[0];
      var q := ToUpdate(d, e);
      assert e in events;
      OnceIsOnScreen(q);
      if !e.Wait? {
        UpdateShrinks(e.cfg, e.status, d.now, e.clock, q);
        OnceShrinks(Id, q, Updated(e.cfg, e.status, d.now, e.clock, q));
      }
      WakeUpsDecide(lag, Happen(lag, d, e), events[1..]);
    }
  }
}
