/** What every operation of src/queues.c does to the three queues, as functions on one
    value. The methods of `QueueManager` are proved to compute these functions, and the
    theorems about runs are stated over them. */
module QueueSpec {
  import opened Notifications
  import opened SortedQueue
  import opened Seeping

  /** Why a notification object left the queues for good. `Replaced` is replacement by id, which
      keeps quiet, and `Stacked` by tag or as a duplicate, which signals. `Shadowed` is the leak
      of `queues_notification_close_id` when one id is live twice. */
  datatype Cause = Skipped | Replaced | Stacked | HistoryIgnored | Evicted | Removed | Shadowed

  datatype Dropped = Dropped(note: Note, cause: Cause)

  datatype Event =
    | Closed(key: nat, id: int, reason: int)
    | ActionInvoked(key: nat, id: int, action: string)

  /** The queues, the id counter, the number of notification objects created so far, the
      objects that were let go, and the signals emitted on the bus. */
  datatype Queues = Queues(
    waiting: seq<Note>,
    displayed: seq<Note>,
    history: seq<Note>,
    nextId: int,
    born: nat,
    dropped: seq<Dropped>,
    log: seq<Event>
  )

  const REASON_TIME := 1
  const REASON_USER := 2
  const REASON_SIG := 3
  const REASON_UNDEF := 4

  const INT_MAX := 0x7FFF_FFFF

  // ---------- signals (src/dbus.c) ----------

  function ReasonOnBus(reason: int): int {
    if 1 <= reason <= 4 then reason else REASON_UNDEF
  }

  /** The notification after `signal_notification_closed`. */
  function Signalled(n: Note): Note {
    if n.dbusValid then n.(dbusValid := false, actions := {}) else n
  }

  /** The bus after `signal_notification_closed`. */
  function LogClosed(log: seq<Event>, n: Note, reason: int): seq<Event> {
    if n.dbusValid then log + [Closed(n.key, n.id, ReasonOnBus(reason))] else log
  }

  function LogAction(log: seq<Event>, n: Note, action: string): seq<Event> {
    if n.dbusValid then log + [ActionInvoked(n.key, n.id, action)] else log
  }

  // ---------- history ----------

  function Drop(q: Queues, n: Note, cause: Cause): Queues {
    q.(dropped := q.dropped + [Dropped(n, cause)])
  }

  function HistoryPush(cfg: Settings, q: Queues, n: Note): Queues {
    if n.historyIgnore then
      Drop(q, n, HistoryIgnored)
    else if cfg.historyLength > 0 && |q.history| >= cfg.historyLength then
      Drop(q, q.history[0], Evicted).(history := q.history[1..] + [n])
    else
      q.(history := q.history + [n])
  }

  function Redisplayed(cfg: Settings, n: Note): Note {
    n.(redisplayed := true, timeout := if cfg.stickyHistory then 0 else n.timeout)
  }

  function HistoryPopAt(cfg: Settings, q: Queues, i: nat): Queues
    requires i < |q.history|
  {
    q.(history := RemoveAt(q.history, i),
       waiting := InsertSorted(cfg, q.waiting, Redisplayed(cfg, q.history[i])))
  }

  function HistoryPop(cfg: Settings, q: Queues): Queues {
    if q.history == [] then q else HistoryPopAt(cfg, q, |q.history| - 1)
  }

  function HistoryPopById(cfg: Settings, q: Queues, id: int): Queues {
    var i := IndexOfId(q.history, id);
    if i == |q.history| then q else HistoryPopAt(cfg, q, i)
  }

  function HistoryRemoveById(q: Queues, id: int): Queues {
    var i := IndexOfId(q.history, id);
    if i == |q.history| then q
    else Drop(q, q.history[i], Removed).(history := RemoveAt(q.history, i))
  }

  function HistoryClear(q: Queues): (r: Queues)
    decreases |q.history|
  {
    if q.history == [] then q
    else HistoryClear(Drop(q, q.history[0], Removed).(history := q.history[1..]))
  }

  // ---------- closing ----------

  /** Signal (unless the notification came back from history) and push to history. */
  function Retire(cfg: Settings, q: Queues, n: Note, reason: int): Queues {
    if n.redisplayed then HistoryPush(cfg, q, n)
    else HistoryPush(cfg, q.(log := LogClosed(q.log, n, reason)), Signalled(n))
  }

  /** `queues_notification_close_id`: the inner loop stops at the first match, the outer
      one goes on, so a second live holder of the id wins and the first is lost. */
  function CloseId(cfg: Settings, q: Queues, id: int, reason: int): (r: Queues)
    ensures |r.displayed| == |q.displayed| - (if IndexOfId(q.displayed, id) < |q.displayed| then 1 else 0)
    ensures |r.waiting| == |q.waiting| - (if IndexOfId(q.waiting, id) < |q.waiting| then 1 else 0)
  {
    var d := IndexOfId(q.displayed, id);
    var w := IndexOfId(q.waiting, id);
    if d == |q.displayed| && w == |q.waiting| then q
    else if w == |q.waiting| then
      Retire(cfg, q.(displayed := RemoveAt(q.displayed, d)), q.displayed[d], reason)
    else if d == |q.displayed| then
      Retire(cfg, q.(waiting := RemoveAt(q.waiting, w)), q.waiting[w], reason)
    else
      Retire(cfg,
             Drop(q, q.displayed[d], Shadowed).(displayed := RemoveAt(q.displayed, d),
                                                waiting := RemoveAt(q.waiting, w)),
             q.waiting[w], reason)
  }

  /** `queues_notification_remove` */
  function RemoveId(cfg: Settings, q: Queues, id: int, reason: int): Queues {
    HistoryRemoveById(CloseId(cfg, q, id, reason), id)
  }

  function CloseDisplayed(cfg: Settings, q: Queues): (r: Queues)
    decreases |q.displayed|
  {
    if q.displayed == [] then q
    else CloseDisplayed(cfg, CloseId(cfg, q, q.displayed[0].id, REASON_USER))
  }

  function CloseWaiting(cfg: Settings, q: Queues): (r: Queues)
    decreases |q.waiting|
  {
    if q.waiting == [] then q
    else CloseWaiting(cfg, CloseId(cfg, q, q.waiting[0].id, REASON_USER))
  }

  /** `queues_history_push_all` */
  function HistoryPushAll(cfg: Settings, q: Queues): Queues {
    CloseWaiting(cfg, CloseDisplayed(cfg, q))
  }

  // ---------- insertion ----------

  /** A slot of displayed or waiting. */
  datatype Slot = NoSlot | InDisplayed(i: nat) | InWaiting(i: nat)

  predicate SlotOf(q: Queues, s: Slot) {
    match s
    case NoSlot => true
    case InDisplayed(i) => i < |q.displayed|
    case InWaiting(i) => i < |q.waiting|
  }

  function NoteIn(q: Queues, s: Slot): Note
    requires SlotOf(q, s) && !s.NoSlot?
  {
    match s
    case InDisplayed(i) => q.displayed[i]
    case InWaiting(i) => q.waiting[i]
  }

  /** First position whose notification is stacked on by `n`: same tag and application. */
  function IndexOfTag(s: seq<Note>, n: Note): (i: nat)
    ensures i <= |s|
    ensures i < |s| ==> s[i].content.stackTag == n.content.stackTag && s[i].content.appname == n.content.appname
  {
    if s == [] then 0
    else if && s[0].content.stackTag != ""
            && s[0].content.stackTag == n.content.stackTag
            && s[0].content.appname == n.content.appname then 0
    else 1 + IndexOfTag(s[1..], n)
  }

  /** First position holding a duplicate of `n`, passing over those whose icon file changed. */
  function IndexOfDuplicate(s: seq<Note>, n: Note, iconChanged: set<nat>): (i: nat)
    ensures i <= |s|
  {
    if s == [] then 0
    else if IsDuplicate(s[0], n) && s[0].key !in iconChanged then 0
    else 1 + IndexOfDuplicate(s[1..], n, iconChanged)
  }

  function SlotAt(q: Queues, d: nat, w: nat): (s: Slot)
    requires d <= |q.displayed| && w <= |q.waiting|
    ensures SlotOf(q, s)
  {
    if d < |q.displayed| then InDisplayed(d) else if w < |q.waiting| then InWaiting(w) else NoSlot
  }

  /** The arriving notification takes over a slot; on screen its display time restarts. */
  function TakeSlot(q: Queues, s: Slot, n: Note, dupCount: int, now: int): Queues
    requires SlotOf(q, s) && !s.NoSlot?
  {
    var n' := n.(dupCount := dupCount);
    match s
    case InDisplayed(i) => q.(displayed := q.displayed[i := n'.(start := now)])
    case InWaiting(i) => q.(waiting := q.waiting[i := n'])
  }

  /** Replacement by id keeps the client's id alive, so the old object is not signalled. */
  function ReplaceIn(q: Queues, s: Slot, n: Note, now: int): Queues
    requires SlotOf(q, s) && !s.NoSlot?
  {
    var held := NoteIn(q, s);
    Drop(TakeSlot(q, s, n, held.dupCount, now), held, Replaced)
  }

  /** Stacking closes the old notification towards its client. */
  function StackIn(q: Queues, s: Slot, n: Note, dupCount: int, now: int): Queues
    requires SlotOf(q, s) && !s.NoSlot?
  {
    var held := NoteIn(q, s);
    Drop(TakeSlot(q.(log := LogClosed(q.log, held, REASON_TIME)), s, n, dupCount, now), Signalled(held), Stacked)
  }

  function DuplicateCount(held: Note, n: Note): int {
    if held.content.progress == n.content.progress then held.dupCount + 1 else held.dupCount
  }

  function ReplaceIdSlot(q: Queues, id: int): (s: Slot)
    ensures SlotOf(q, s)
  {
    SlotAt(q, IndexOfId(q.displayed, id), IndexOfId(q.waiting, id))
  }

  function TagSlot(q: Queues, n: Note): (s: Slot)
    ensures SlotOf(q, s)
  {
    SlotAt(q, IndexOfTag(q.displayed, n), IndexOfTag(q.waiting, n))
  }

  function DuplicateSlot(q: Queues, n: Note, iconChanged: set<nat>): (s: Slot)
    ensures SlotOf(q, s)
  {
    SlotAt(q, IndexOfDuplicate(q.displayed, n, iconChanged), IndexOfDuplicate(q.waiting, n, iconChanged))
  }

  /** The client asks for an id: the holder is replaced, or the id is assigned anyway. */
  function PlaceWithId(cfg: Settings, q: Queues, n: Note, now: int): Queues {
    var s := ReplaceIdSlot(q, n.id);
    if !s.NoSlot? then ReplaceIn(q, s, n, now)
    else q.(waiting := InsertSorted(cfg, q.waiting, n))
  }

  /** A notification under a new id: stacked by tag, stacked as a duplicate, or queued. */
  function PlaceNew(cfg: Settings, q: Queues, n: Note, now: int, iconChanged: set<nat>): Queues {
    var byTag := TagSlot(q, n);
    var byDup := DuplicateSlot(q, n, iconChanged);
    if n.content.stackTag != "" && !byTag.NoSlot? then
      StackIn(q, byTag, n, NoteIn(q, byTag).dupCount, now)
    else if cfg.stackDuplicates && !byDup.NoSlot? then
      var r := StackIn(q, byDup, n, DuplicateCount(NoteIn(q, byDup), n), now);
      if cfg.sort == ByUpdate then r.(displayed := StableSort(cfg, r.displayed)) else r
    else
      q.(waiting := InsertSorted(cfg, q.waiting, n))
  }

  /** Where an arriving notification goes, before the fullscreen test. */
  function Place(cfg: Settings, q: Queues, n: Note, now: int, iconChanged: set<nat>): Queues {
    if n.id != 0 then PlaceWithId(cfg, q, n, now)
    else PlaceNew(cfg, q.(nextId := q.nextId + 1), n.(id := q.nextId + 1), now, iconChanged)
  }

  function AssignedId(q: Queues, n: Note): int {
    if n.id != 0 then n.id else q.nextId + 1
  }

  /** The fullscreen test at the end of an insertion. */
  function CloseSuppressed(cfg: Settings, status: Status, q: Queues, n: Note, id: int): Queues {
    if status.fullscreen && n.fullscreen == FsSuppress then CloseId(cfg, q, id, REASON_UNDEF) else q
  }

  /** `queues_notification_insert` of a notification that is not in the queues yet. */
  function Insert(cfg: Settings, status: Status, q: Queues, n: Note, now: int, iconChanged: set<nat>): Queues {
    if n.content.msg == "" then q
    else CloseSuppressed(cfg, status, Place(cfg, q, n, now, iconChanged), n, AssignedId(q, n))
  }

  /** The client of a notification that was refused is told, and the object is let go. */
  function Dismiss(q: Queues, n: Note): Queues {
    Drop(q.(log := LogClosed(q.log, n, REASON_USER)), Signalled(n), Skipped)
  }

  function InsertOrDismiss(cfg: Settings, status: Status, q: Queues, n: Note, now: int, iconChanged: set<nat>): Queues {
    var r := Insert(cfg, status, q, n, now, iconChanged);
    if n.content.msg == "" then Dismiss(r, n) else r
  }

  /** `dbus_cb_Notify`: the created object is inserted, and dismissed when it was refused. */
  function Notify(cfg: Settings, status: Status, q: Queues, n: Note, now: int, iconChanged: set<nat>): Queues {
    InsertOrDismiss(cfg, status, q.(born := q.born + 1), n, now, iconChanged)
  }

  // ---------- client requests ----------

  function GetById(q: Queues, id: int): Option<Note> {
    var d := IndexOfId(q.displayed, id);
    var w := IndexOfId(q.waiting, id);
    var h := IndexOfId(q.history, id);
    if d < |q.displayed| then Some(q.displayed[d])
    else if w < |q.waiting| then Some(q.waiting[w])
    else if h < |q.history| then Some(q.history[h])
    else None
  }

  /** `signal_notification_closed` on the notification that holds the id. */
  function SignalId(q: Queues, id: int, reason: int): Queues {
    var d := IndexOfId(q.displayed, id);
    var w := IndexOfId(q.waiting, id);
    var h := IndexOfId(q.history, id);
    if d < |q.displayed| then
      q.(displayed := q.displayed[d := Signalled(q.displayed[d])], log := LogClosed(q.log, q.displayed[d], reason))
    else if w < |q.waiting| then
      q.(waiting := q.waiting[w := Signalled(q.waiting[w])], log := LogClosed(q.log, q.waiting[w], reason))
    else if h < |q.history| then
      q.(history := q.history[h := Signalled(q.history[h])], log := LogClosed(q.log, q.history[h], reason))
    else q
  }

  /** `dbus_cb_CloseNotification`: with ignore_dbusclose the client is only told it was closed. */
  function CloseNotification(cfg: Settings, q: Queues, id: int): Queues {
    if !cfg.ignoreDbusClose then CloseId(cfg, q, id, REASON_SIG)
    else if id > 0 then SignalId(q, id, REASON_SIG)
    else q
  }

  /** The action `notification_do_action` reports, if it reports one. */
  function ChosenAction(n: Note): (a: Option<string>)
    ensures a.Some? ==> a.value in n.actions
  {
    if n.defaultAction in n.actions then Some(n.defaultAction)
    else if n.defaultAction == "default" && |n.actions| == 1 then Some(OnlyAction(n.actions))
    else None
  }

  ghost predicate IsOnly(actions: set<string>, a: string) { actions == {a} }

  lemma OnlyActionExists(actions: set<string>)
    requires |actions| == 1
    ensures exists a :: IsOnly(actions, a)
    ensures forall a, b | a in actions && b in actions :: a == b
  {
    var a :| a in actions;
    assert |actions - {a}| == 0;
    assert IsOnly(actions, a);
  }

  function OnlyAction(actions: set<string>): (a: string)
    requires |actions| == 1
    ensures a in actions
  {
    OnlyActionExists(actions);
    var a :| a in actions;
    a
  }

  /** What `notification_do_action` leaves to others. */
  datatype Next = Nothing | OpenMenu | OpenBrowser(url: string)

  /** No action is reported: the menu decides between actions or URLs, a single URL is opened.
      `urls` are the URLs found in the text, one a line. */
  function NextOf(n: Note, urls: Option<string>): Next {
    if ChosenAction(n).Some? then Nothing
    else if n.actions != {} then OpenMenu
    else if urls.None? then Nothing
    else if '\n' in urls.value then OpenMenu
    else OpenBrowser(urls.value)
  }

  function DoAction(q: Queues, i: nat): Queues {
    if i < |q.displayed| && ChosenAction(q.displayed[i]).Some? then
      q.(log := LogAction(q.log, q.displayed[i], ChosenAction(q.displayed[i]).value))
    else q
  }

  /** First displayed notification with the id that offers the action. */
  function IndexOfAction(s: seq<Note>, id: int, action: string): (i: nat)
    ensures i <= |s|
    ensures i < |s| ==> s[i].id == id && action in s[i].actions
  {
    if s == [] || (s[0].id == id && action in s[0].actions) then 0 else 1 + IndexOfAction(s[1..], id, action)
  }

  /** `invoke_action`: an action chosen in the context menu. */
  function InvokeAction(q: Queues, id: int, action: string): Queues {
    var i := IndexOfAction(q.displayed, id, action);
    if i == |q.displayed| then q else q.(log := LogAction(q.log, q.displayed[i], action))
  }

  // ---------- one update ----------

  /** `queues_notification_is_ready` */
  predicate IsReady(n: Note, status: Status, shown: bool) {
    if status.pauseLevel > n.overridePauseLevel then false
    else if status.fullscreen && shown then n.fullscreen != FsPushback
    else if status.fullscreen then n.fullscreen == FsShow
    else true
  }

  predicate Paused(n: Note, status: Status) {
    !n.transient && ((!status.fullscreen && status.idle) || status.mouseOver)
  }

  /** `queues_notification_is_finished` */
  predicate IsFinished(n: Note, status: Status, time: int) {
    || (n.skipDisplay && !n.redisplayed)
    || (n.timeout != 0 && !Paused(n, status) && time - n.start > n.timeout)
  }

  /** The same test restarts the display time of a paused notification; `clock` is what
      the monotonic clock shows when it does so. */
  function Touched(n: Note, status: Status, clock: int): Note {
    if !(n.skipDisplay && !n.redisplayed) && n.timeout != 0 && Paused(n, status) then n.(start := clock) else n
  }

  predicate Suppressed(n: Note, status: Status) {
    status.fullscreen && n.fullscreen == FsSuppress
  }

  function ToWaiting(cfg: Settings, q: Queues, i: nat): Queues
    requires i < |q.displayed|
  {
    q.(displayed := RemoveAt(q.displayed, i), waiting := InsertSorted(cfg, q.waiting, q.displayed[i]))
  }

  function ToDisplayed(cfg: Settings, q: Queues, i: nat, time: int): Queues
    requires i < |q.waiting|
  {
    q.(waiting := RemoveAt(q.waiting, i),
       displayed := InsertSorted(cfg, q.displayed, q.waiting[i].(start := time)))
  }

  function SetDisplayed(q: Queues, i: nat, n: Note): Queues
    requires i < |q.displayed|
  {
    q.(displayed := q.displayed[i := n])
  }

  function SetWaiting(q: Queues, i: nat, n: Note): Queues
    requires i < |q.waiting|
  {
    q.(waiting := q.waiting[i := n])
  }

  lemma IndexOfIdAtMost(s: seq<Note>, id: int, i: nat)
    requires i < |s| && s[i].id == id
    ensures IndexOfId(s, id) <= i
  {
  }

  /** One turn of the first loop, on the displayed notification at position `i`. */
  function SweepStep(cfg: Settings, status: Status, time: int, clock: nat -> int, q: Queues, i: nat)
    : (r: (Queues, nat))
    requires i < |q.displayed|
    ensures r.1 <= |r.0.displayed| && |r.0.displayed| - r.1 < |q.displayed| - i
  {
    var n := q.displayed[i];
    IndexOfIdAtMost(q.displayed, n.id, i);
    if n.locked then (q, i + 1)
    else if n.closeMark != 0 then
      var c := SetDisplayed(q, i, n.(closeMark := 0));
      IndexOfIdAtMost(c.displayed, n.id, i);
      (CloseId(cfg, c, n.id, n.closeMark), i)
    else if n.removeMark != 0 then
      var c := SetDisplayed(q, i, n.(removeMark := 0));
      IndexOfIdAtMost(c.displayed, n.id, i);
      (RemoveId(cfg, c, n.id, n.removeMark), i)
    else SweepUnmarked(cfg, status, time, clock, q, i)
  }

  /** The same for a notification that is neither locked nor marked. */
  function SweepUnmarked(cfg: Settings, status: Status, time: int, clock: nat -> int, q: Queues, i: nat)
    : (r: (Queues, nat))
    requires i < |q.displayed|
    ensures r.1 <= |r.0.displayed| && |r.0.displayed| - r.1 < |q.displayed| - i
  {
    var n := q.displayed[i];
    var t := Touched(n, status, clock(n.key));
    IndexOfIdAtMost(q.displayed, n.id, i);
    if IsFinished(n, status, time) then (CloseId(cfg, q, n.id, REASON_TIME), i)
    else
      var q' := SetDisplayed(q, i, t);
      IndexOfIdAtMost(q'.displayed, t.id, i);
      if Suppressed(t, status) then (CloseId(cfg, q', t.id, REASON_UNDEF), i)
      else if !IsReady(t, status, true) then (ToWaiting(cfg, q', i), i)
      else (q', i + 1)
  }

  function Sweep(cfg: Settings, status: Status, time: int, clock: nat -> int, q: Queues, i: nat): Queues
    requires i <= |q.displayed|
    decreases |q.displayed| - i
  {
    if i == |q.displayed| then q
    else
      var s := SweepStep(cfg, status, time, clock, q, i);
      Sweep(cfg, status, time, clock, s.0, s.1)
  }

  /** `cur_displayed_limit` */
  function Limit(cfg: Settings, q: Queues): int {
    if cfg.notificationLimit == 0 then INT_MAX
    else if cfg.indicateHidden && cfg.notificationLimit > 1
            && |q.displayed| + |q.waiting| > cfg.notificationLimit then cfg.notificationLimit - 1
    else cfg.notificationLimit
  }

  /** One turn of the second loop, on the waiting notification at position `i`. */
  function PromoteStep(cfg: Settings, status: Status, time: int, q: Queues, i: nat): (r: (Queues, nat))
    requires i < |q.waiting|
    ensures r.1 <= |r.0.waiting| && |r.0.waiting| - r.1 < |q.waiting| - i
  {
    var n := q.waiting[i];
    var q' := SetWaiting(q, i, n.(start := time));
    IndexOfIdAtMost(q'.waiting, n.id, i);
    if Suppressed(n, status) then (CloseId(cfg, q', n.id, REASON_UNDEF), i)
    else if !IsReady(n, status, false) then (q, i + 1)
    else if n.skipDisplay && !n.redisplayed then (CloseId(cfg, q', n.id, REASON_USER), i)
    else (ToDisplayed(cfg, q, i, time), i)
  }

  function Promote(cfg: Settings, status: Status, time: int, limit: int, q: Queues, i: nat): Queues
    requires i <= |q.waiting|
    decreases |q.waiting| - i
  {
    if i == |q.waiting| || |q.displayed| >= limit then q
    else
      var s := PromoteStep(cfg, status, time, q, i);
      Promote(cfg, status, time, limit, s.0, s.1)
  }

  /** The third loop pushes overhanging notifications back. */
  function Trim(cfg: Settings, limit: int, q: Queues): Queues
    requires 0 <= limit
    decreases |q.displayed|
  {
    if |q.displayed| <= limit then q
    else Trim(cfg, limit, ToWaiting(cfg, q, |q.displayed| - 1))
  }

  /** The head of waiting is shown instead of the last displayed notification
      (`queues_swap_notifications`). */
  function Swap(cfg: Settings, time: int, q: Queues): (r: Queues)
    requires q.waiting != [] && q.displayed != []
    ensures |r.displayed| == |q.displayed| && |r.waiting| == |q.waiting|
  {
    var last := |q.displayed| - 1;
    q.(displayed := InsertSorted(cfg, q.displayed[..last], q.waiting[0].(start := time)),
       waiting := InsertSorted(cfg, q.waiting[1..], q.displayed[last]))
  }

  /** The fourth loop goes on while this holds. Its walk to `prev` starts at the head, so
      only the head of waiting is ever a candidate. */
  predicate Seeps(cfg: Settings, status: Status, q: Queues) {
    && q.waiting != []
    && q.displayed != []
    && IsReady(q.waiting[0], status, false)
    && Cmp(cfg, q.displayed[|q.displayed| - 1], q.waiting[0]) > 0
  }

  /** Every swap of the fourth loop makes the measure of `Seeping` smaller, so the loop ends:
      for queues in any order, any ids and any timestamps. */
  lemma SwapDecreases(cfg: Settings, status: Status, time: int, q: Queues)
    requires Seeps(cfg, status, q)
    ensures var r := Swap(cfg, time, q);
            Smaller(UrgencyInversions(cfg, r.displayed, r.waiting), AllDescents(cfg, r.displayed, r.waiting),
                    Depth(cfg, r.displayed, r.waiting),
                    UrgencyInversions(cfg, q.displayed, q.waiting), AllDescents(cfg, q.displayed, q.waiting),
                    Depth(cfg, q.displayed, q.waiting))
  {
    ExchangeDecreases(cfg, q.displayed, q.waiting, q.waiting[0].(start := time));
  }

  /** Where the comparator is a preorder, a swap also strictly lowers the number of pairs of
      a displayed and a waiting notification in the wrong order. */
  lemma SwapRemovesInversions(cfg: Settings, base: int, status: Status, time: int, q: Queues)
    requires Comparable(cfg, base, q) && Seeps(cfg, status, q)
    ensures var r, rank := Swap(cfg, time, q), (n: Note) => Rank(cfg, n);
            Inversions(rank, r.displayed, r.waiting) < Inversions(rank, q.displayed, q.waiting)
  {
    var d := q.displayed[|q.displayed| - 1];
    assert d in q.displayed && q.waiting[0] in q.waiting;
    CmpIsRankOrder(cfg, base, d, q.waiting[0]);
    ExchangeInversions(cfg, n => Rank(cfg, n), q.displayed, q.waiting, q.waiting[0].(start := time));
  }

  ghost predicate Comparable(cfg: Settings, base: int, q: Queues) {
    AllInWindow(cfg, base, q.displayed) && AllInWindow(cfg, base, q.waiting)
  }

  /** The fourth loop. */
  function Seep(cfg: Settings, status: Status, time: int, q: Queues): Queues
    decreases UrgencyInversions(cfg, q.displayed, q.waiting), AllDescents(cfg, q.displayed, q.waiting),
              Depth(cfg, q.displayed, q.waiting)
  {
    if !Seeps(cfg, status, q) then q
    else
      SwapDecreases(cfg, status, time, q);
      Seep(cfg, status, time, Swap(cfg, time, q))
  }
}
