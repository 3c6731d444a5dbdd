/** When the window changes next: `queues_get_next_datachange` of src/queues.c and the age
    text of src/notification.c. */
module Wakeup {
  import opened Notifications

  const SECOND := 1_000_000
  const INT64_MAX := 0x7FFF_FFFF_FFFF_FFFF

  /** C remainder. */
  function Rem(x: int, m: int): int
    requires m > 0
  {
    if x >= 0 then x % m else -((-x) % m)
  }

  function NextSecond(time: int): int {
    time + SECOND - Rem(time, SECOND)
  }

  /** A notification may time out on its own. */
  predicate Expires(n: Note) {
    n.timeout > 0 && !n.locked
  }

  /** The next moment the age text of `n` may have to change. */
  function AgeEvent(cfg: Settings, n: Note, time: int): int {
    if time - n.timestamp > cfg.showAgeThreshold - SECOND then NextSecond(time)
    else n.timestamp + cfg.showAgeThreshold
  }

  /** The loop of `queues_get_next_datachange` from some element on. */
  function NextFrom(cfg: Settings, s: seq<Note>, time: int, wakeup: int): int {
    if s == [] then (if wakeup != INT64_MAX then wakeup else -1)
    else
      var n := s[0];
      if Expires(n) && n.start + n.timeout <= time then time
      else
        var w1 := if Expires(n) then Min(wakeup, n.start + n.timeout) else wakeup;
        var w2 := if cfg.showAgeThreshold >= 0 then Min(w1, AgeEvent(cfg, n, time)) else w1;
        NextFrom(cfg, s[1..], time, w2)
  }

  function NextDatachange(cfg: Settings, s: seq<Note>, time: int): int {
    NextFrom(cfg, s, time, INT64_MAX)
  }

  // ---------- what it means ----------

  /** Something visible about `n` may change at `x`; an overdue timeout is due now. */
  predicate IsEvent(cfg: Settings, n: Note, time: int, x: int) {
    || (Expires(n) && x == if n.start + n.timeout <= time then time else n.start + n.timeout)
    || (cfg.showAgeThreshold >= 0 && x == AgeEvent(cfg, n, time))
  }

  ghost predicate HasEvent(cfg: Settings, s: seq<Note>, time: int, x: int) {
    exists n :: n in s && IsEvent(cfg, n, time, x)
  }

  lemma EventsNotBefore(cfg: Settings, n: Note, time: int, x: int)
    requires 0 <= time && IsEvent(cfg, n, time, x)
    ensures time <= x
  {
  }

  lemma {:induction false} NextFromIsMinimum(cfg: Settings, s: seq<Note>, time: int, wakeup: int)
    requires 0 <= time <= wakeup <= INT64_MAX && time < INT64_MAX
    ensures var r := NextFrom(cfg, s, time, wakeup);
            if r == -1 then wakeup == INT64_MAX && forall x | HasEvent(cfg, s, time, x) :: x >= INT64_MAX
            else && time <= r < INT64_MAX && r <= wakeup
                 && (r == wakeup || HasEvent(cfg, s, time, r))
                 && (forall x | HasEvent(cfg, s, time, x) :: r <= x)
  {
    if s != [] {
      var n := s[0];
      assert forall m :: m in s <==> m == n || m in s[1..];
      forall x | IsEvent(cfg, n, time, x) ensures time <= x { EventsNotBefore(cfg, n, time, x); }
      forall x ensures HasEvent(cfg, s, time, x) <==> IsEvent(cfg, n, time, x) || HasEvent(cfg, s[1..], time, x) {
        if IsEvent(cfg, n, time, x) { assert n in s; }
        if HasEvent(cfg, s[1..], time, x) {
          var m :| m in s[1..] && IsEvent(cfg, m, time, x);
          assert m in s;
        }
      }
      if Expires(n) && n.start + n.timeout <= time {
        assert IsEvent(cfg, n, time, time);
        forall x | HasEvent(cfg, s, time, x) ensures time <= x {
          var m :| m in s && IsEvent(cfg, m, time, x);
          EventsNotBefore(cfg, m, time, x);
        }
      } else {
        var w1 := if Expires(n) then Min(wakeup, n.start + n.timeout) else wakeup;
        var w2 := if cfg.showAgeThreshold >= 0 then Min(w1, AgeEvent(cfg, n, time)) else w1;
        NextFromIsMinimum(cfg, s[1..], time, w2);
        assert w2 == wakeup || IsEvent(cfg, n, time, w2);
      }
    }
  }

  /** The result is the earliest pending event, never before the given time, and -1 only
      when there is none (before the end of the 64-bit clock). */
  lemma NextDatachangeIsExact(cfg: Settings, s: seq<Note>, time: int)
    requires 0 <= time < INT64_MAX
    ensures var r := NextDatachange(cfg, s, time);
            && (r == -1 <==> forall x | HasEvent(cfg, s, time, x) :: x >= INT64_MAX)
            && (r != -1 ==> time <= r && HasEvent(cfg, s, time, r) && forall x | HasEvent(cfg, s, time, x) :: r <= x)
  {
    NextFromIsMinimum(cfg, s, time, INT64_MAX);
    var r := NextDatachange(cfg, s, time);
    if r != -1 { assert HasEvent(cfg, s, time, r); }
  }

  // ---------- the age text ----------

  /** Hours, minutes and seconds shown behind the text, or nothing below the threshold. */
  datatype Age = NoAge | Age(hours: int, minutes: int, seconds: int)

  /** The age part of `notification_update_text_to_render`, at clock time `now`. */
  function AgeText(cfg: Settings, n: Note, now: int): Age {
    var delta := now - (n.timestamp - Rem(n.timestamp, SECOND));
    if cfg.showAgeThreshold >= 0 && delta >= cfg.showAgeThreshold then
      var s := delta / SECOND;
      Age(s / 3600, s / 60 % 60, s % 60)
    else NoAge
  }

  /** The moment the age text first appears. */
  function FirstShown(cfg: Settings, n: Note): int {
    n.timestamp - Rem(n.timestamp, SECOND) + cfg.showAgeThreshold
  }

  /** The text counts the time since the full second in which the notification came, in hours,
      minutes and seconds; there is none below the threshold, and none for a negative one. */
  lemma AgeTextTellsTheAge(cfg: Settings, n: Note, now: int)
    requires 0 <= n.timestamp <= now
    ensures var age := now - n.timestamp / 1_000_000 * 1_000_000;
            match AgeText(cfg, n, now)
            case NoAge => cfg.showAgeThreshold < 0 || age < cfg.showAgeThreshold
            case Age(h, m, s) =>
              && 0 <= cfg.showAgeThreshold <= age
              && 0 <= h && 0 <= m < 60 && 0 <= s < 60 && 3600 * h + 60 * m + s == age / 1_000_000
  {
    var s := (now - n.timestamp / 1_000_000 * 1_000_000) / SECOND;
    assert n.timestamp - Rem(n.timestamp, SECOND) == n.timestamp / 1_000_000 * 1_000_000;
    HoursMinutesSeconds(s);
  }

  lemma HoursMinutesSeconds(s: nat)
    ensures 3600 * (s / 3600) + 60 * (s / 60 % 60) + s % 60 == s
  {
    assert s / 60 / 60 == s / 3600;
  }

  lemma SecondsStandStill(time: int, t: int, whole: int)
    requires 0 <= time <= t < NextSecond(time) && whole % SECOND == 0
    ensures (t - whole) / SECOND == (time - whole) / SECOND
  {
    var k, m := time / SECOND, whole / SECOND;
    assert k * SECOND <= time && t < (k + 1) * SECOND;
    assert whole == m * SECOND;
    assert (k - m) * SECOND <= time - whole && t - whole < (k - m + 1) * SECOND;
  }

  lemma WholeSecond(x: int)
    requires 0 <= x
    ensures (x - Rem(x, SECOND)) % SECOND == 0 && 0 <= Rem(x, SECOND) < SECOND
  {
  }

  /** Until the next full second the age text stays as it is. */
  lemma AgeStandsStill(cfg: Settings, n: Note, time: int, t: int)
    requires cfg.showAgeThreshold >= 0 && cfg.showAgeThreshold % SECOND == 0 && 0 <= n.timestamp
    requires 0 <= time <= t < NextSecond(time)
    ensures AgeText(cfg, n, t) == AgeText(cfg, n, time)
  {
    var whole := n.timestamp - Rem(n.timestamp, SECOND);
    WholeSecond(n.timestamp);
    SecondsStandStill(time, t, whole);
    SecondsStandStill(time, t, whole + cfg.showAgeThreshold);
    assert t - whole >= cfg.showAgeThreshold <==> time - whole >= cfg.showAgeThreshold;
  }

  /** With a threshold of whole seconds, no age text on screen changes before the announced
      time. The only staleness is a first appearance, and it is less than a second old. */
  lemma AgeTextsStandStill(cfg: Settings, s: seq<Note>, n: Note, time: int, t: int)
    requires n in s && 0 <= n.timestamp && 0 <= time <= t && n.timestamp + cfg.showAgeThreshold < INT64_MAX - SECOND
    requires time < INT64_MAX - SECOND && cfg.showAgeThreshold % SECOND == 0
    requires NextDatachange(cfg, s, time) == -1 || t < NextDatachange(cfg, s, time)
    ensures || AgeText(cfg, n, t) == AgeText(cfg, n, time)
            || (&& AgeText(cfg, n, time) == NoAge
                && FirstShown(cfg, n) <= t
                && NextDatachange(cfg, s, time) - FirstShown(cfg, n) < SECOND)
  {
    if cfg.showAgeThreshold >= 0 {
      NextDatachangeIsExact(cfg, s, time);
      var e := AgeEvent(cfg, n, time);
      assert IsEvent(cfg, n, time, e) && HasEvent(cfg, s, time, e);
      WholeSecond(n.timestamp);
      if time - n.timestamp > cfg.showAgeThreshold - SECOND {
        AgeStandsStill(cfg, n, time, t);
      } else {
        assert AgeText(cfg, n, time) == NoAge;
        assert AgeText(cfg, n, t) != NoAge ==> FirstShown(cfg, n) <= t;
      }
    }
  }
}
