/** The queues as src/queues.c keeps them: three lists and a counter, updated in place by
    loops. Every method is proved to compute the function of the same operation. */
module QueueManager {
  import opened Notifications
  import opened SortedQueue
  import opened Seeping
  import Spec = QueueSpec
  import opened Update
  import Runs
  import opened Wakeup

  type Event = Spec.Event

  class Manager {
    var waiting: seq<Note>
    var displayed: seq<Note>
    var history: seq<Note>
    var nextNotificationId: int
    var bus: seq<Event>
    ghost var born: nat
    ghost var dropped: seq<Spec.Dropped>

    ghost function State(): Spec.Queues
      reads this
    {
      Spec.Queues(waiting, displayed, history, nextNotificationId, born, dropped, bus)
    }

    /** `queues_init` */
    constructor ()
      ensures State() == Runs.EMPTY
    {
      waiting, displayed, history, nextNotificationId, bus := [], [], [], 1, [];
      born, dropped := 0, [];
    }

    /** The search loops for an id. */
    static method Find(s: seq<Note>, id: int) returns (i: nat)
      ensures i == IndexOfId(s, id)
    {
      i := 0;
      while i < |s|
        invariant i <= |s|
        invariant IndexOfId(s, id) == i + IndexOfId(s[i..], id)
      {
        if s[i].id == id { return; }
        i := i + 1;
      }
    }

    static method FindTag(s: seq<Note>, n: Note) returns (i: nat)
      ensures i == Spec.IndexOfTag(s, n)
    {
      i := 0;
      while i < |s|
        invariant i <= |s|
        invariant Spec.IndexOfTag(s, n) == i + Spec.IndexOfTag(s[i..], n)
      {
        var c := s[i].content;
        if c.stackTag != "" && c.stackTag == n.content.stackTag && c.appname == n.content.appname { return; }
        i := i + 1;
      }
    }

    static method FindDuplicate(s: seq<Note>, n: Note, iconChanged: set<nat>) returns (i: nat)
      ensures i == Spec.IndexOfDuplicate(s, n, iconChanged)
    {
      i := 0;
      while i < |s|
        invariant i <= |s|
        invariant Spec.IndexOfDuplicate(s, n, iconChanged) == i + Spec.IndexOfDuplicate(s[i..], n, iconChanged)
      {
        if IsDuplicate(s[i], n) {
          // The icon file was touched since and shows something else: not a duplicate.
          if s[i].key !in iconChanged { return; }
        }
        i := i + 1;
      }
    }

    /** `signal_notification_closed`; the caller stores the changed notification back. */
    method SignalClosed(n: Note, reason: int) returns (m: Note)
      modifies this`bus
      ensures m == Spec.Signalled(n) && bus == Spec.LogClosed(old(bus), n, reason)
    {
      m := n;
      if !n.dbusValid { return; }
      var code := reason;
      if reason < 1 || 4 < reason { code := Spec.REASON_UNDEF; }
      bus := bus + [Spec.Closed(n.key, n.id, code)];
      m := m.(actions := {});
      m := m.(dbusValid := false);
    }

    /** `signal_action_invoked` */
    method SignalAction(n: Note, action: string)
      modifies this`bus
      ensures bus == Spec.LogAction(old(bus), n, action)
    {
      if !n.dbusValid { return; }
      bus := bus + [Spec.ActionInvoked(n.key, n.id, action)];
    }

    /** `queues_history_push` */
    method HistoryPush(cfg: Settings, n: Note)
      modifies this`history, this`dropped
      ensures State() == Spec.HistoryPush(cfg, old(State()), n)
    {
      if !n.historyIgnore {
        if cfg.historyLength > 0 && |history| >= cfg.historyLength {
          dropped := dropped + [Spec.Dropped(history[0], Spec.Evicted)];
          history := history[1..];
        }
        history := history + [n];
      } else {
        dropped := dropped + [Spec.Dropped(n, Spec.HistoryIgnored)];
      }
    }

    /** `queues_notification_close_id` */
    method CloseId(cfg: Settings, id: int, reason: int)
      modifies this
      ensures State() == Spec.CloseId(cfg, old(State()), id, reason)
    {
      var target: Option<Note> := None;
      var d := Find(displayed, id);
      if d < |displayed| {
        target := Some(displayed[d]);
        displayed := RemoveAt(displayed, d);
      }
      var w := Find(waiting, id);
      if w < |waiting| {
        if target.Some? { dropped := dropped + [Spec.Dropped(target.value, Spec.Shadowed)]; }
        target := Some(waiting[w]);
        waiting := RemoveAt(waiting, w);
      }
      if target.Some? {
        var n := target.value;
        // One that came back from history was signalled before.
        if !n.redisplayed { n := SignalClosed(n, reason); }
        HistoryPush(cfg, n);
      }
    }

    /** `queues_history_remove_by_id` */
    method HistoryRemoveById(id: int) returns (found: bool)
      modifies this`history, this`dropped
      ensures State() == Spec.HistoryRemoveById(old(State()), id)
      ensures found <==> IndexOfId(old(history), id) < |old(history)|
    {
      var i := Find(history, id);
      found := i < |history|;
      if found {
        dropped := dropped + [Spec.Dropped(history[i], Spec.Removed)];
        history := RemoveAt(history, i);
      }
    }

    /** `queues_notification_remove` */
    method Remove(cfg: Settings, id: int, reason: int)
      modifies this
      ensures State() == Spec.RemoveId(cfg, old(State()), id, reason)
    {
      CloseId(cfg, id, reason);
      var _ := HistoryRemoveById(id);
    }

    /** `queues_history_clear` */
    method HistoryClear() returns (cleared: nat)
      modifies this`history, this`dropped
      ensures State() == Spec.HistoryClear(old(State()))
      ensures cleared == |old(history)|
    {
      cleared := |history|;
      while history != []
        invariant Spec.HistoryClear(old(State())) == Spec.HistoryClear(State())
      {
        dropped := dropped + [Spec.Dropped(history[0], Spec.Removed)];
        history := history[1..];
      }
    }

    /** `queues_history_pop` */
    method HistoryPop(cfg: Settings)
      modifies this`history, this`waiting
      ensures State() == Spec.HistoryPop(cfg, old(State()))
    {
      if |history| == 0 { return; }
      Restore(cfg, |history| - 1);
    }

    /** `queues_history_pop_by_id` */
    method HistoryPopById(cfg: Settings, id: int)
      modifies this`history, this`waiting
      ensures State() == Spec.HistoryPopById(cfg, old(State()), id)
    {
      var i := Find(history, id);
      if i == |history| { return; }
      Restore(cfg, i);
    }

    method Restore(cfg: Settings, i: nat)
      requires i < |history|
      modifies this`history, this`waiting
      ensures State() == Spec.HistoryPopAt(cfg, old(State()), i)
    {
      var n := history[i];
      history := RemoveAt(history, i);
      n := n.(redisplayed := true);
      if cfg.stickyHistory { n := n.(timeout := 0); }
      waiting := InsertSorted(cfg, waiting, n);
    }

    /** `queues_history_push_all` */
    method HistoryPushAll(cfg: Settings)
      modifies this
      ensures State() == Spec.HistoryPushAll(cfg, old(State()))
    {
      while |displayed| > 0
        invariant Spec.CloseDisplayed(cfg, old(State())) == Spec.CloseDisplayed(cfg, State())
        decreases |displayed|
      {
        CloseId(cfg, displayed[0].id, Spec.REASON_USER);
      }
      ghost var mid := State();
      while |waiting| > 0
        invariant Spec.CloseWaiting(cfg, mid) == Spec.CloseWaiting(cfg, State())
        decreases |waiting|
      {
        CloseId(cfg, waiting[0].id, Spec.REASON_USER);
      }
    }

    /** `queues_get_by_id` */
    method GetById(id: int) returns (n: Option<Note>)
      ensures n == Spec.GetById(State(), id)
    {
      var i := Find(displayed, id);
      if i < |displayed| { return Some(displayed[i]); }
      i := Find(waiting, id);
      if i < |waiting| { return Some(waiting[i]); }
      i := Find(history, id);
      if i < |history| { return Some(history[i]); }
      return None;
    }

    // ---------- insertion ----------

    /** The new notification takes over a slot of displayed or waiting. */
    method TakeSlot(s: Spec.Slot, n: Note, dupCount: int, now: int)
      requires Spec.SlotOf(State(), s) && !s.NoSlot?
      modifies this`displayed, this`waiting
      ensures State() == Spec.TakeSlot(old(State()), s, n, dupCount, now)
    {
      var m := n.(dupCount := dupCount);
      match s {
        case InDisplayed(i) =>
          m := m.(start := now);
          displayed := displayed[i := m];
        case InWaiting(i) =>
          waiting := waiting[i := m];
      }
    }

    /** `queues_notification_replace_id` */
    method ReplaceId(n: Note, now: int) returns (found: bool)
      modifies this`displayed, this`waiting, this`dropped
      ensures found <==> !Spec.ReplaceIdSlot(old(State()), n.id).NoSlot?
      ensures State() == if found then Spec.ReplaceIn(old(State()), Spec.ReplaceIdSlot(old(State()), n.id), n, now)
                         else old(State())
    {
      var i := Find(displayed, n.id);
      if i < |displayed| {
        var was := displayed[i];
        TakeSlot(Spec.InDisplayed(i), n, was.dupCount, now);
        dropped := dropped + [Spec.Dropped(was, Spec.Replaced)];
        return true;
      }
      i := Find(waiting, n.id);
      if i < |waiting| {
        var was := waiting[i];
        TakeSlot(Spec.InWaiting(i), n, was.dupCount, now);
        dropped := dropped + [Spec.Dropped(was, Spec.Replaced)];
        return true;
      }
      return false;
    }

    method StackOn(s: Spec.Slot, was: Note, n: Note, dupCount: int, now: int)
      requires Spec.SlotOf(State(), s) && !s.NoSlot? && was == Spec.NoteIn(State(), s)
      modifies this
      ensures State() == Spec.StackIn(old(State()), s, n, dupCount, now)
    {
      var m := SignalClosed(was, Spec.REASON_TIME);
      TakeSlot(s, n, dupCount, now);
      dropped := dropped + [Spec.Dropped(m, Spec.Stacked)];
    }

    /** `queues_stack_by_tag` */
    method StackByTag(n: Note, now: int) returns (stacked: bool)
      modifies this
      ensures stacked <==> !Spec.TagSlot(old(State()), n).NoSlot?
      ensures State() == if stacked then
                           var s := Spec.TagSlot(old(State()), n);
                           Spec.StackIn(old(State()), s, n, Spec.NoteIn(old(State()), s).dupCount, now)
                         else old(State())
    {
      var i := FindTag(displayed, n);
      if i < |displayed| {
        StackOn(Spec.InDisplayed(i), displayed[i], n, displayed[i].dupCount, now);
        return true;
      }
      i := FindTag(waiting, n);
      if i < |waiting| {
        StackOn(Spec.InWaiting(i), waiting[i], n, waiting[i].dupCount, now);
        return true;
      }
      return false;
    }

    /** `queues_stack_duplicate` */
    method StackDuplicate(n: Note, now: int, iconChanged: set<nat>) returns (stacked: bool)
      modifies this
      ensures stacked <==> !Spec.DuplicateSlot(old(State()), n, iconChanged).NoSlot?
      ensures State() == if stacked then
                           var s := Spec.DuplicateSlot(old(State()), n, iconChanged);
                           Spec.StackIn(old(State()), s, n, Spec.DuplicateCount(Spec.NoteIn(old(State()), s), n), now)
                         else old(State())
    {
      var i := FindDuplicate(displayed, n, iconChanged);
      if i < |displayed| {
        StackOn(Spec.InDisplayed(i), displayed[i], n, Spec.DuplicateCount(displayed[i], n), now);
        return true;
      }
      i := FindDuplicate(waiting, n, iconChanged);
      if i < |waiting| {
        StackOn(Spec.InWaiting(i), waiting[i], n, Spec.DuplicateCount(waiting[i], n), now);
        return true;
      }
      return false;
    }

    /** The three ways in and the queue, in the order they are tried. */
    method Place(cfg: Settings, n: Note, now: int, iconChanged: set<nat>) returns (id: int)
      modifies this
      ensures State() == Spec.Place(cfg, old(State()), n, now, iconChanged)
      ensures id == Spec.AssignedId(old(State()), n)
    {
      if n.id != 0 {
        var found := ReplaceId(n, now);
        // Nothing live to replace: the client gets the id it asked for.
        if !found { waiting := InsertSorted(cfg, waiting, n); }
        return n.id;
      }
      nextNotificationId := nextNotificationId + 1;
      var m := n.(id := nextNotificationId);
      PlaceNew(cfg, m, now, iconChanged);
      return m.id;
    }

    method PlaceNew(cfg: Settings, n: Note, now: int, iconChanged: set<nat>)
      modifies this
      ensures State() == Spec.PlaceNew(cfg, old(State()), n, now, iconChanged)
    {
      var inserted := false;
      if n.content.stackTag != "" { inserted := StackByTag(n, now); }
      if !inserted && cfg.stackDuplicates {
        inserted := StackDuplicate(n, now, iconChanged);
        if inserted && cfg.sort == ByUpdate { displayed := StableSort(cfg, displayed); }
      }
      if !inserted { waiting := InsertSorted(cfg, waiting, n); }
    }

    /** `queues_notification_insert` */
    method Insert(cfg: Settings, status: Status, n: Note, now: int, iconChanged: set<nat>) returns (id: int)
      modifies this
      ensures State() == Spec.Insert(cfg, status, old(State()), n, now, iconChanged)
      ensures id == if n.content.msg == "" then 0 else Spec.AssignedId(old(State()), n)
    {
      if n.content.msg == "" { return 0; }
      id := Place(cfg, n, now, iconChanged);
      if status.fullscreen && n.fullscreen == FsSuppress {
        CloseId(cfg, id, Spec.REASON_UNDEF);
      }
    }

    /** `dbus_cb_Notify` of a newly created notification object. */
    method Notify(cfg: Settings, status: Status, n: Note, now: int, iconChanged: set<nat>)
      requires n.key == born && 0 <= nextNotificationId
      modifies this
      ensures State() == Spec.Notify(cfg, status, old(State()), n, now, iconChanged)
    {
      born := born + 1;
      InsertOrDismiss(cfg, status, n, now, iconChanged);
    }

    /** Insert a created notification, and dismiss it when it was refused. */
    method InsertOrDismiss(cfg: Settings, status: Status, n: Note, now: int, iconChanged: set<nat>)
      requires 0 <= nextNotificationId
      modifies this
      ensures State() == Spec.InsertOrDismiss(cfg, status, old(State()), n, now, iconChanged)
    {
      var id := Insert(cfg, status, n, now, iconChanged);
      if id == 0 {
        Discard(n);
      }
    }

    /** The text was empty: the client is told and the object is let go. */
    method Discard(n: Note)
      modifies this`bus, this`dropped
      ensures State() == Spec.Dismiss(old(State()), n)
    {
      var m := SignalClosed(n, Spec.REASON_USER);
      dropped := dropped + [Spec.Dropped(m, Spec.Skipped)];
    }

    /** `dbus_cb_CloseNotification` */
    method CloseNotification(cfg: Settings, id: int)
      modifies this
      ensures State() == Spec.CloseNotification(cfg, old(State()), id)
    {
      if cfg.ignoreDbusClose {
        if id > 0 {
          var d := Find(displayed, id);
          var w := Find(waiting, id);
          var h := Find(history, id);
          if d < |displayed| {
            var m := SignalClosed(displayed[d], Spec.REASON_SIG);
            displayed := displayed[d := m];
          } else if w < |waiting| {
            var m := SignalClosed(waiting[w], Spec.REASON_SIG);
            waiting := waiting[w := m];
          } else if h < |history| {
            var m := SignalClosed(history[h], Spec.REASON_SIG);
            history := history[h := m];
          }
        }
      } else {
        CloseId(cfg, id, Spec.REASON_SIG);
      }
    }

    /** `notification_do_action`: report the action, or say what is to be opened. */
    method DoAction(i: nat, urls: Option<string>) returns (next: Spec.Next)
      modifies this`bus
      ensures State() == Spec.DoAction(old(State()), i)
      ensures next == if i < |displayed| then Spec.NextOf(displayed[i], urls) else Spec.Nothing
    {
      next := Spec.Nothing;
      if i >= |displayed| { return; }
      var n := displayed[i];
      if |n.actions| > 0 {
        if n.defaultAction in n.actions {
          SignalAction(n, n.defaultAction);
        } else if n.defaultAction == "default" && |n.actions| == 1 {
          Spec.OnlyActionExists(n.actions);
          var only :| only in n.actions;
          SignalAction(n, only);
        } else {
          next := Spec.OpenMenu;
        }
      } else if urls.Some? {
        next := if '\n' in urls.value then Spec.OpenMenu else Spec.OpenBrowser(urls.value);
      }
    }

    // ---------- update ----------

    /** `invoke_action` */
    method InvokeAction(id: int, action: string)
      modifies this`bus
      ensures State() == Spec.InvokeAction(old(State()), id, action)
    {
      var i := 0;
      while i < |displayed| && !(displayed[i].id == id && action in displayed[i].actions)
        invariant i <= |displayed|
        invariant Spec.IndexOfAction(displayed, id, action) == i + Spec.IndexOfAction(displayed[i..], id, action)
      {
        assert displayed[i..][1..] == displayed[i + 1..];
        i := i + 1;
      }
      if i < |displayed| {
        SignalAction(displayed[i], action);
      }
    }

    /** `queues_notification_is_finished` on a displayed notification; a pause restarts it. */
    method IsFinished(i: nat, status: Status, time: int, clock: nat -> int) returns (finished: bool)
      requires i < |displayed|
      modifies this`displayed
      ensures finished == Spec.IsFinished(old(displayed[i]), status, time)
      ensures displayed == old(displayed)[i := Spec.Touched(old(displayed[i]), status, clock(old(displayed[i]).key))]
    {
      var n := displayed[i];
      if n.skipDisplay && !n.redisplayed { return true; }
      if n.timeout == 0 { return false; }
      var isIdle := if status.fullscreen then false else status.idle;
      if isIdle && !n.transient {
        displayed := displayed[i := n.(start := clock(n.key))];
        return false;
      }
      if status.mouseOver && !n.transient {
        displayed := displayed[i := n.(start := clock(n.key))];
        return false;
      }
      return time - n.start > n.timeout;
    }

    /** First loop: close what is marked, finished or suppressed, push back what may not be shown. */
    method SweepDisplayed(cfg: Settings, status: Status, time: int, clock: nat -> int)
      modifies this
      ensures State() == AfterSweep(cfg, status, time, clock, old(State()))
    {
      var i: nat := 0;
      while i < |displayed|
        invariant i <= |displayed|
        invariant Spec.Sweep(cfg, status, time, clock, old(State()), 0)
                == Spec.Sweep(cfg, status, time, clock, State(), i)
        decreases |displayed| - i
      {
        ghost var step := Spec.SweepStep(cfg, status, time, clock, State(), i);
        i := SweepOne(cfg, status, time, clock, i);
        assert step == (State(), i);
      }
    }

    method SweepOne(cfg: Settings, status: Status, time: int, clock: nat -> int, i: nat) returns (next: nat)
      requires i < |displayed|
      modifies this
      ensures (State(), next) == Spec.SweepStep(cfg, status, time, clock, old(State()), i)
    {
      var n := displayed[i];
      if n.locked { return i + 1; }
      if n.closeMark != 0 {
        displayed := displayed[i := n.(closeMark := 0)];
        CloseId(cfg, n.id, n.closeMark);
        return i;
      }
      if n.removeMark != 0 {
        displayed := displayed[i := n.(removeMark := 0)];
        Remove(cfg, n.id, n.removeMark);
        return i;
      }
      next := SweepUnmarked(cfg, status, time, clock, i);
    }

    /** The same for a notification that is neither locked nor marked. */
    method SweepUnmarked(cfg: Settings, status: Status, time: int, clock: nat -> int, i: nat) returns (next: nat)
      requires i < |displayed|
      modifies this
      ensures (State(), next) == Spec.SweepUnmarked(cfg, status, time, clock, old(State()), i)
    {
      ghost var q := State();
      var id := displayed[i].id;
      var finished := IsFinished(i, status, time, clock);
      if finished {
        assert displayed == q.displayed;
        CloseId(cfg, id, Spec.REASON_TIME);
        return i;
      }
      var n := displayed[i];
      assert State() == Spec.SetDisplayed(q, i, n);
      if status.fullscreen && n.fullscreen == FsSuppress {
        CloseId(cfg, n.id, Spec.REASON_UNDEF);
        return i;
      }
      if !Spec.IsReady(n, status, true) {
        displayed := RemoveAt(displayed, i);
        waiting := InsertSorted(cfg, waiting, n);
        return i;
      }
      return i + 1;
    }

    /** Second loop: show what is ready while there is room. */
    method PromoteWaiting(cfg: Settings, status: Status, time: int, limit: int)
      modifies this
      ensures State() == Spec.Promote(cfg, status, time, limit, old(State()), 0)
    {
      var i: nat := 0;
      while |displayed| < limit && i < |waiting|
        invariant i <= |waiting|
        invariant Spec.Promote(cfg, status, time, limit, old(State()), 0)
                == Spec.Promote(cfg, status, time, limit, State(), i)
        decreases |waiting| - i
      {
        ghost var step := Spec.PromoteStep(cfg, status, time, State(), i);
        i := PromoteOne(cfg, status, time, i);
        assert step == (State(), i);
      }
    }

    method PromoteOne(cfg: Settings, status: Status, time: int, i: nat) returns (next: nat)
      requires i < |waiting|
      modifies this
      ensures (State(), next) == Spec.PromoteStep(cfg, status, time, old(State()), i)
    {
      var n := waiting[i];
      if status.fullscreen && n.fullscreen == FsSuppress {
        waiting := waiting[i := n.(start := time)];
        CloseId(cfg, n.id, Spec.REASON_UNDEF);
        return i;
      }
      if !Spec.IsReady(n, status, false) { return i + 1; }
      n := n.(start := time);
      if n.skipDisplay && !n.redisplayed {
        waiting := waiting[i := n];
        CloseId(cfg, n.id, Spec.REASON_USER);
      } else {
        waiting := RemoveAt(waiting, i);
        displayed := InsertSorted(cfg, displayed, n);
      }
      return i;
    }

    /** Third loop: push overhanging notifications back. */
    method TrimDisplayed(cfg: Settings, limit: int)
      requires 0 <= limit
      modifies this`displayed, this`waiting
      ensures State() == Spec.Trim(cfg, limit, old(State()))
    {
      while |displayed| > limit
        invariant Spec.Trim(cfg, limit, old(State())) == Spec.Trim(cfg, limit, State())
        decreases |displayed|
      {
        var n := displayed[|displayed| - 1];
        assert RemoveAt(displayed, |displayed| - 1) == displayed[..|displayed| - 1];
        displayed := displayed[..|displayed| - 1];
        waiting := InsertSorted(cfg, waiting, n);
      }
    }

    /** `queues_swap_notifications` on the last displayed and the first waiting one. */
    method Swap(cfg: Settings, time: int)
      requires waiting != [] && displayed != []
      modifies this`displayed, this`waiting
      ensures State() == Spec.Swap(cfg, time, old(State()))
    {
      var toDisplayed := waiting[0].(start := time);
      var toWaiting := displayed[|displayed| - 1];
      displayed := displayed[..|displayed| - 1];
      waiting := waiting[1..];
      displayed := InsertSorted(cfg, displayed, toDisplayed);
      waiting := InsertSorted(cfg, waiting, toWaiting);
    }

    /** Fourth loop: let more important notifications seep into a full screen. */
    method SeepWaiting(cfg: Settings, status: Status, time: int)
      modifies this
      ensures State() == Spec.Seep(cfg, status, time, old(State()))
    {
      while |waiting| > 0 && |displayed| > 0
        invariant Spec.Seep(cfg, status, time, old(State())) == Spec.Seep(cfg, status, time, State())
        decreases UrgencyInversions(cfg, displayed, waiting), AllDescents(cfg, displayed, waiting),
                  Depth(cfg, displayed, waiting)
      {
        // The walk towards `prev` starts at the head and leaves the list at once.
        if !Spec.IsReady(waiting[0], status, false) { break; }
        if Cmp(cfg, displayed[|displayed| - 1], waiting[0]) <= 0 { break; }
        Spec.SwapDecreases(cfg, status, time, State());
        if status.fullscreen && waiting[0].fullscreen == FsSuppress {
          assert false;
        } else {
          Swap(cfg, time);
        }
      }
    }

    /** `cur_displayed_limit` */
    method DisplayedLimit(cfg: Settings) returns (limit: int)
      ensures limit == Spec.Limit(cfg, State()) && limit >= 0
    {
      if cfg.notificationLimit == 0 {
        limit := Spec.INT_MAX;
      } else if && cfg.indicateHidden
                && cfg.notificationLimit > 1
                && |displayed| + |waiting| > cfg.notificationLimit {
        limit := cfg.notificationLimit - 1;
      } else {
        limit := cfg.notificationLimit;
      }
    }

    /** `queues_update` */
    method UpdateQueues(cfg: Settings, status: Status, time: int, clock: nat -> int)
      modifies this
      ensures State() == Updated(cfg, status, time, clock, old(State()))
    {
      SweepDisplayed(cfg, status, time, clock);
      var limit := DisplayedLimit(cfg);
      PromoteWaiting(cfg, status, time, limit);
      TrimDisplayed(cfg, limit);
      assert State() == AfterTrim(cfg, status, time, clock, old(State()));
      if cfg.sort != SortType.ById && |displayed| == limit {
        SeepWaiting(cfg, status, time);
      }
    }

    /** `queues_get_next_datachange` */
    method GetNextDatachange(cfg: Settings, time: int) returns (at: int)
      ensures at == NextDatachange(cfg, displayed, time)
    {
      var wakeup := INT64_MAX;
      var nextSecond := time + SECOND - Rem(time, SECOND);
      var i := 0;
      while i < |displayed|
        invariant i <= |displayed|
        invariant NextDatachange(cfg, displayed, time) == NextFrom(cfg, displayed[i..], time, wakeup)
      {
        var n := displayed[i];
        var timeoutAt := n.start + n.timeout;
        if n.timeout > 0 && !n.locked {
          // Its time was up before the loop came here.
          if timeoutAt <= time { return time; }
          wakeup := Min(wakeup, timeoutAt);
        }
        if cfg.showAgeThreshold >= 0 {
          var age := time - n.timestamp;
          if age > cfg.showAgeThreshold - SECOND {
            wakeup := Min(wakeup, nextSecond);
          } else {
            wakeup := Min(wakeup, n.timestamp + cfg.showAgeThreshold);
          }
        }
        i := i + 1;
      }
      return if wakeup != INT64_MAX then wakeup else -1;
    }
  }
}
