# dunst, verified

A Dafny model of dunst's notification daemon. Its centre is the scheduler of
`src/queues.c`: three queues (waiting, displayed, history) and one update step that closes,
pushes back, promotes, trims and swaps notifications under a limit, a pause level, fullscreen
state and a comparator. Around it stand the comparator and age text of `src/notification.c`,
the timer loop of `src/dunst.c`, and the closed and action signals of `src/dbus.c`, which
section 9 of the Desktop Notifications Specification describes. The second part is the text
engine: buffer replacement, markup handling and the format expander. Three smaller parts
follow: rules with save and restore, hit-testing against painting, and recursive theme
loading.

Check everything with `dafny verify dfyconfig.toml`.

## Layout

| file | about |
|---|---|
| `Notification.dfy`, `SortedQueue.dfy` | notifications, the C-int comparator, sorted insertion, counting |
| `QueueSpec.dfy`, `Seeping.dfy`, `Update.dfy` | every queue operation and the update as functions; why the swap loop ends; order |
| `Conservation.dfy`, `Arrival.dfy`, `Runs.dfy`, `Shadowing.dfy` | the invariant, operation by operation; what it gives over whole runs; what an unsafe id loses |
| `History.dfy` | closing all, popping |
| `Distinct.dfy` | distinct ids among what is displayed or waits |
| `Scheduling.dfy`, `Closing.dfy`, `Selection.dfy` | who is on screen after an update, and who is closed by it |
| `Showing.dfy`, `Signals.dfy`, `Stacking.dfy`, `Dismissal.dfy` | what an update, a signal, an arrival and a dismissal mean for the fields of a notification |
| `HeldBack.dfy`, `Lineup.dfy`, `SortedRuns.dfy` | exactly when an update shows the best, and when the queues are in order |
| `QueueManager.dfy` | the mutable queues: the loops of the source, each proved against its function |
| `Wakeup.dfy`, `Daemon.dfy`, `MainLoop.dfy` | the next wake-up, the timer, and how late an expiry can be |
| `Strings.dfy`, `Markup.dfy`, `Links.dfy`, `LinkTags.dfy`, `Format.dfy` | text as values, and what the passes mean |
| `Specifiers.dfy`, `FullMarkup.dfy`, `Images.dfy`, `TextSearch.dfy` | what format specifiers, links, images, line breaks and entities are shown as |
| `StringBuffer.dfy`, `MarkupBuffer.dfy` | the same on NUL-terminated character arrays that are rewritten in place |
| `Rules.dfy`, `RuleFilters.dfy` | rules, their filters, saved originals, reload |
| `Window.dfy`, `Surface.dfy`, `Screen.dfy` | heights, painting, clicking |
| `IconThemes.dfy`, `IconSearch.dfy` | themes, their inheritance, and which theme an icon is from |

Operations that the source performs step by step are methods on a class or an array; each
ensures that its new state is a function of the old one, and the theorems are about these
functions. A notification is a value whose `key` is the identity of its object, since ids can
be chosen by clients.

## Where the code differs from what is said about it

- `docs/dunst.5.pod:353-356` says that update order puts the most recent notification on top
  and that the order is reversed at the bottom of the screen. The reversal applies to update
  order only (`src/notification.c:216`), and "most recent on top" fails for notifications 2^31
  microseconds (about 36 minutes) apart: `UpdateOrderHoldsIffSpanBelow`.
- Only the head of waiting is ever a candidate of the swap loop, so a head that is held back
  keeps better notifications off the screen: `HeldBackHeadHides`. `BestShownIff` says exactly
  when it does not.
- A replacement in place does not move the new notification to its sorted position
  (`src/queues.c:257`, `src/queues.c:291`, `src/queues.c:340`): `RaisedButNotShown`.
  `ArrivalSortedIff` is the exact condition, and `RunSortedIff` carries it over whole runs.
- Two live holders of one id make `queues_notification_close_id` lose one of them when they are
  in different queues (`CloseLosesIff`, `SecondHolderIsLost`), and an update close the wrong one
  when both are on screen (`OverdueStays`). While clients ask for safe ids this never happens
  (`IdsStayDistinct`), and ids stay distinct at an arrival exactly when its id is safe
  (`IdsSurviveIffSafe`). What an update decides, and how late an expiry is, is stated for queues
  in which no two notifications that are displayed or wait (or only those on screen) share an
  id; ids in history and the counter do not matter there. Conservation, signals, history length,
  order, rows and the number of timers need no assumption about ids at all.
- `string_strip_delimited` puts back too much after adjacent regions: `StripIsRightIff`,
  `StripGoesWrong`.
- `markup_strip_a` stops early when a closing tag comes inside an opening one, so link tags
  may remain: `LinkStays`, with the condition in `LinksGoneIff`.
- A rule's effect on a field that arrived as the unset marker survives a reload:
  `ReloadForgetsIff`.
- Clicking and painting disagree for an odd separator without a frame, and for gaps with a
  frame and a missing top or bottom corner: `NoGapAgreesIff`, `GapAgreesIff`.
- The window counts two frames for every row of a list with gaps, and painting draws one only
  next to a rounded corner, so pixel rows are left over at the bottom: `WindowFitsIff`.
- The comment above `load_icon_theme_from_dir` asks not to load a theme twice, and
  `load_icon_themes` does not check: `LoadedOnceIff`, `SecondCopy`. Lookup skips inherited
  index 0 as if it were missing, which turns out not to matter: `SkippingFirstIsHarmless`.

## Model

| member | source | states |
|---|---|---|
| `Notifications.CmpIsRankOrder` | src/notification.c:212-237 | inside one window (ids nonnegative ints, timestamps within 2^31 µs) the comparator, narrowed to int as in C, has the sign of the intended order, in every sort mode and for both origins |
| `Notifications.CmpIsTotalPreorder` | src/notification.c:212-237 | hence it is reflexive, total, antisymmetric in sign and transitive there |
| `Notifications.UpdateOrderHoldsIffSpanBelow` | src/notification.c:231-234 | newest-on-top holds for all arrivals at most `span` apart if and only if `span` < 2^31 µs: the 64-bit difference is returned as int |
| `SortedQueue.InsertKeepsSorted` | src/queues.c:194-194 | inserting through the comparator keeps a sorted queue sorted |
| `SortedQueue.SortSorts` | src/queues.c:187-189 | sorting after a stacked duplicate yields a sorted queue |
| `QueueManager.Manager.Find` | src/queues.c:360-371 | the loop over one queue stops at the first notification with the id |
| `QueueManager.Manager.SignalClosed` | src/dbus.c:1108-1163 | emits NotificationClosed only while dbus_valid, with reasons outside 1..4 turned into 4, then clears dbus_valid and the actions |
| `QueueManager.Manager.SignalAction` | src/dbus.c:1165-1188 | emits ActionInvoked only while dbus_valid |
| `QueueManager.Manager.HistoryPush` | src/queues.c:446-459 | drops on history_ignore; otherwise appends, after evicting the oldest when a positive history_length is reached |
| `QueueManager.Manager.CloseId` | src/queues.c:356-379 | unlinks the first holder of the id from displayed and from waiting, signals unless redisplayed, pushes the last one found to history; a second live holder is lost |
| `QueueManager.Manager.HistoryRemoveById` | src/queues.c:472-493 | removes the first history entry with the id and says whether there was one |
| `QueueManager.Manager.Remove` | src/queues.c:387-392 | closes the notification and removes it from history |
| `QueueManager.Manager.HistoryClear` | src/queues.c:400-406 | empties history and returns how many entries it had |
| `QueueManager.Manager.HistoryPop` | src/queues.c:408-417 | the newest history entry goes back to waiting, marked redisplayed, its timeout cleared under sticky_history |
| `QueueManager.Manager.HistoryPopById` | src/queues.c:419-444 | the same for the first history entry with the id; nothing happens when there is none |
| `QueueManager.Manager.HistoryPushAll` | src/queues.c:461-470 | closes everything displayed, then everything waiting, with reason 2 |
| `QueueManager.Manager.GetById` | src/queues.c:670-685 | looks in displayed, then waiting, then history |
| `QueueManager.Manager.ReplaceId` | src/queues.c:331-354 | the arriving notification takes the slot of the live holder of its id, with its dup_count; on screen its start is set; the old object is not signalled |
| `QueueManager.Manager.StackByTag` | src/queues.c:283-329 | the arriving notification takes the slot of the first live one with its stack tag and appname, which is signalled with reason 1 |
| `QueueManager.Manager.StackDuplicate` | src/queues.c:221-275 | the same for the first duplicate whose icon file did not change; dup_count grows when progress is equal |
| `QueueManager.Manager.Place` | src/queues.c:171-199 | an arriving notification replaces by id, or gets the next id and is stacked by tag, stacked as a duplicate, or inserted into waiting |
| `QueueManager.Manager.Insert` | src/queues.c:161-213 | no message: refused with 0; otherwise placed, and closed again when fullscreen suppresses it; returns the id |
| `QueueManager.Manager.Notify` | src/dbus.c:1041-1070 | creates the object, inserts it, and signals it closed with reason 2 when insertion refused it |
| `QueueManager.Manager.CloseNotification` | src/dbus.c:1072-1094 | closes with reason 3; with ignore_dbusclose it only signals the holder of a positive id |
| `QueueManager.Manager.DoAction` | src/notification.c:769-803 | invokes the default action, or the only action when the default one is missing and named "default"; otherwise the menu is asked for, or the browser when there are no actions and one URL |
| `QueueManager.Manager.InvokeAction` | src/menu.c:174-220 | an action chosen in the menu is reported for the first displayed notification of that id that offers it, and for none otherwise |
| `QueueManager.Manager.IsFinished` | src/queues.c:129-159 | finished when never to be shown, or when a nonzero timeout has passed and the notification is not paused; a paused one restarts its display time |
| `QueueManager.Manager.SweepDisplayed` | src/queues.c:502-547 | the first loop: close marks, remove marks, expiry, suppression, push-back; locked ones are skipped |
| `QueueManager.Manager.PromoteWaiting` | src/queues.c:561-592 | the second loop: fill free places from waiting, closing suppressed and skip_display ones |
| `QueueManager.Manager.TrimDisplayed` | src/queues.c:594-598 | the third loop: push the last displayed ones back while over the limit |
| `QueueManager.Manager.Swap` | src/queues.c:82-97 | the two notifications trade queues, each at its sorted place, and the shown one starts now |
| `QueueManager.Manager.SeepWaiting` | src/queues.c:600-625 | the fourth loop: swap the head of waiting in while it is ready and compares above the last displayed one |
| `QueueManager.Manager.UpdateQueues` | src/queues.c:495-627 | the whole update is the four loops in order, with the limit computed after the first |
| `QueueManager.Manager.GetNextDatachange` | src/queues.c:629-665 | the loop over displayed computes the next moment something on screen changes |
| `QueueSpec.SwapDecreases` | src/queues.c:603-625 | each swap of the fourth loop lowers a measure, so the loop ends: for queues in any order, any ids and any 64-bit timestamps, although the narrowed comparator need not be transitive |
| `Seeping.ExchangeDecreases` | src/queues.c:82-97 | the measure in terms of the two lists: pairs of urgencies in the wrong order, then neighbours of which the first compares below the second, then the place the pushed-back one would take |
| `QueueSpec.SwapRemovesInversions` | src/queues.c:603-625 | inside one window each swap also strictly lowers the number of (displayed, waiting) pairs ranked in the wrong order |
| `Conservation.CloseIdKeeps` | src/queues.c:356-379 | closing moves one object and creates, copies or loses none; ids stay distinct, signals agree with flags, history stays within its length |
| `Conservation.RemoveIdKeeps` | src/queues.c:387-392 | the same for removing |
| `Conservation.HistoryPushAllKeeps` | src/queues.c:461-470 | the same for closing everything |
| `Conservation.HistoryPopKeeps` | src/queues.c:408-444 | the same for popping any history entry |
| `Conservation.SweepKeeps` | src/queues.c:502-547 | the same for the whole first loop |
| `Conservation.PromoteKeeps` | src/queues.c:561-592 | the same for the whole second loop |
| `Conservation.TrimKeeps` | src/queues.c:594-598 | the same for the third loop |
| `Conservation.SeepKeeps` | src/queues.c:600-625 | the same for the fourth loop |
| `Arrival.NotifyKeeps` | src/queues.c:161-213 | an arrival under any id keeps every object in one place, the signals in agreement and history within its length, whichever branch places it; ids stay distinct besides when its id is 0, or handed out before and not in history |
| `Arrival.IdsSurviveIffSafe` | src/queues.c:173-187 | that condition on the id is exact: for a notification with text that is not suppressed, ids stay distinct if and only if it holds |
| `Stacking.OnlyTheSameIsStackedOver` | src/queues.c:221-275 | an arrival without tag and id of its own is stacked over nothing but a live notification with its appname, summary, body and urgency, with an icon that matches or is off, whose icon file did not change, and only with stack_duplicates |
| `Stacking.SayingItAgainStacks` | src/queues.c:221-275 | with stack_duplicates, when a live one says the same the queues do not grow, and the count carried on goes up by one exactly when progress is equal |
| `Stacking.StacksDuplicateOnScreen` | src/queues.c:221-275 | the first such row on screen becomes the arrival, started now; the old one's client hears reason 1 |
| `Stacking.StackedInUpdateOrder` | src/queues.c:186-189 | in update order the screen is in order of time afterwards |
| `Stacking.StacksDuplicateWaiting` | src/queues.c:221-275 | none on screen: the first such in waiting, which keeps its place |
| `Stacking.StacksByTagOnScreen` | src/queues.c:283-329 | the first row with the same nonempty tag and appname becomes the arrival with the old count, started now; the old one's client hears reason 1 |
| `Stacking.StacksByTagWaiting` | src/queues.c:283-329 | none on screen: the first such in waiting |
| `Stacking.QueuesWhenAlone` | src/queues.c:183-194 | nothing to stack on: the arrival waits under the next id, and nobody else is touched or told |
| `Stacking.ReplacesOnScreen` | src/queues.c:331-354 | an arrival that asks for an id takes the row of its first holder, count included, and nobody is told |
| `Stacking.ReplacesWaiting` | src/queues.c:331-354 | none on screen: the place of the first holder in waiting |
| `Stacking.TakesFreeId` | src/queues.c:172-179 | an id nobody holds is assigned, and the counter stays |
| `Stacking.RefusedWithoutText` | src/dbus.c:1041-1070 | without text the queues stay as they are, and the client hears reason 2 |
| `Stacking.SuppressedOnArrival` | src/queues.c:206-210 | an arrival that fullscreen mode suppresses is neither displayed nor waiting afterwards, and the last its client hears is reason 4 |
| `Runs.SignalIdKeeps` | src/dbus.c:1079-1088 | telling a client its notification is closed, without closing it, keeps the invariants |
| `Runs.UpdateKeeps` | src/queues.c:495-627 | one update keeps all invariants |
| `Runs.StepKeeps` | src/queues.c:161-627 | every one of the fourteen operations keeps the invariants, whatever ids clients ask for, and distinct ids besides while those are safe |
| `Runs.ReworkedKeeps` | src/queues.c:687-700 | rules applied again to all three queues keep the invariants |
| `Conservation.CloseLosesIff` | src/queues.c:356-379 | closing an id lets a notification go without a signal if and only if the id is held in both live queues |
| `Shadowing.SecondHolderIsLost` | src/queues.c:356-379 | a run from the empty queues in which one arrival asks for the id of a notification in history: it ends with that arrival gone from all three queues, and its client was never told |
| `Shadowing.OverdueStays` | src/queues.c:502-547 | the same with both holders on screen: an update closes the sticky one, and the overdue one stays |
| `Runs.EveryNotificationIsInOnePlace` | src/queues.c:161-627 | over any run from the empty queues, whatever ids clients ask for, exactly the notifications ever created are somewhere, each at one position of displayed, waiting or history, or let go once for a named cause |
| `Runs.IdsStayDistinct` | src/queues.c:356-379 | over any run in which clients ask for safe ids, all ids in the three queues differ, are positive and at most the counter, and no close ever loses one of two holders |
| `Runs.ClosedExactlyOnce` | src/dbus.c:1108-1188 | over any run, whatever ids clients ask for, each notification is signalled closed at most once and nothing follows; everything in history or redisplayed has dbus_valid false and no actions; a bus notification in history, or let go for any cause but replacement by id and loss, stacking included, was signalled exactly once |
| `Runs.HistoryStaysWithin` | src/queues.c:446-459 | over any run under one positive history_length, history never exceeds it |
| `Signals.SignalsNameTheirObject` | src/dbus.c:1108-1188 | over any run, whatever ids clients ask for, every signal is about an object that arrived, carries the id that object has in whichever queue it is or with which it was let go, and gives a reason from 1 to 4 |
| `Signals.UpdateTells` | src/queues.c:495-627 | all that the bus hears of an update, in order and on the fields: the mark's reason, 1 for a finished and 4 for a suppressed row, then 4 for suppressed and 2 for skipped waiting ones as far as rows are free; nothing else, and nothing for one recalled from history or already signalled |
| `Signals.CloseAllTells` | src/queues.c:461-470 | closing everything signals reason 2 once for each client, down the screen and then along the queue |
| `Signals.ClientCloses` | src/dbus.c:1072-1094 | a client that closes its notification hears reason 3, and it leaves the live queues |
| `Signals.ClientIsOnlyTold` | src/dbus.c:1079-1088 | under ignore_dbusclose it hears reason 3 and only loses its actions: no queue changes otherwise |
| `Signals.ClickIsCarriedOut` | src/queues.c:512-524 | a mark set by a click is carried out by the next update: the notification is gone, and its client heard the mark's reason |
| `Signals.ClickReports` | src/notification.c:769-803 | a click reports the default action, or the only action when none but "default" was configured, under the key and id of the row, and changes nothing else |
| `Signals.ClickOpens` | src/notification.c:769-803 | otherwise it opens the menu for actions or several URLs, the browser for one URL, and nothing without either |
| `Signals.MenuReports` | src/menu.c:174-220 | the menu reports the chosen action for the row that has the id and offers it, and nothing when there is none |
| `Dismissal.CloseFilesAway` | src/queues.c:356-379 | closing takes the notification out of its queue and puts it, with dbus_valid and actions cleared, at the end of history; a full history lets its oldest go; history_ignore lets the notification itself go; no other is touched |
| `Dismissal.TwoHoldersLoseOne` | src/queues.c:360-378 | with an id held on screen and in the queue, the queued holder is closed and its client told, and the other is lost |
| `Dismissal.RemovedForGood` | src/queues.c:387-392 | removing a live notification leaves its id in no queue, history included |
| `Dismissal.OnlyMarkedAreRemoved` | src/queues.c:502-547 | an update lets go as removed only what was displayed, unlocked, and marked to be removed and not to be closed |
| `Dismissal.MarkedAreRemoved` | src/queues.c:519-524 | and all of that: after the update it is neither live nor in history |
| `Dismissal.ClosedAreFiled` | src/queues.c:502-592 | every other notification that an update closes is in history afterwards, unless it asks to be left out or newer ones pushed it out |
| `Dismissal.ClearLetsAllGo` | src/queues.c:400-406 | clearing lets all of history go, oldest first, and touches nothing else |
| `Dismissal.RecallsNewest` | src/queues.c:408-417 | popping moves the newest entry to waiting, marked as recalled and, under sticky_history, without a timeout |
| `Dismissal.RecallsById` | src/queues.c:419-444 | the same for the first entry with the id, and nothing without one |
| `Dismissal.FoundById` | src/queues.c:670-685 | a lookup finds a holder exactly when there is one, on screen before the queue and there before history |
| `History.CloseAllFilesInOrder` | src/queues.c:446-470 | closing all leaves screen and queue empty and in history the newest entries of: old history, then displayed, then waiting, in order, without those that ignore history |
| `History.PopsTakeTheNewest` | src/queues.c:408-417 | k pops take the k newest entries, newest first, and leave the rest in order |
| `History.PopUndoesClose` | src/queues.c:356-417 | closing a displayed notification and popping brings that one back to waiting and history back to what it was, less the evicted oldest |
| `Update.UpdateKeepsSorted` | src/queues.c:495-627 | an update that starts with both queues sorted ends with both sorted |
| `Distinct.UpdateShrinks` | src/queues.c:495-627 | no update makes an id or an object occur more often among what is displayed or waits, whatever ids there are |
| `Scheduling.UpdateLengths` | src/queues.c:549-598 | an update ends with at most the limit on screen, and loses notifications only in the first two loops |
| `Scheduling.UpdateLeavesFit` | src/queues.c:502-627 | when no two notifications on screen share an id, everything displayed and unlocked after an update is ready, not suppressed and not expired |
| `Scheduling.UpdateConservesWork` | src/queues.c:502-592 | when no two that are displayed or wait share an id, besides: below the limit nothing that waits is ready |
| `Closing.PushedBackStaysBack` | src/queues.c:534-542 | a displayed notification that is not ready is not on screen when the update ends |
| `Scheduling.UpdateOnlyRestarts` | src/queues.c:495-627 | when no two on screen share an id, everything live afterwards was live before and differs in its start time at most |
| `Closing.DisplayedLeavesIff` | src/queues.c:502-547 | a displayed notification is closed by an update if and only if no menu holds it and it is marked, finished or suppressed; whatever else the update does |
| `Closing.WaitingLeavesIff` | src/queues.c:560-592 | a waiting one is closed if and only if it is suppressed, or ready and never to be shown, and the ready ones before it leave a place free |
| `Closing.UpdateLeavesSurvivors` | src/queues.c:495-627 | what is displayed or waits after an update are exactly the survivors computed from the queues before it |
| `Showing.ScreenHoldsAtMost` | src/queues.c:549-598 | an update leaves at most the rows that the settings allow: notification_limit, one less where more than that are left alive and the "(N more)" text takes one, and 2^31-1 for 0 |
| `Showing.DisplayedMayBeShown` | src/queues.c:106-118 | after an update every unlocked row has an override_pause_level of at least the pause level, in fullscreen neither pushback nor suppress, and time left |
| `Showing.WaitingIsHeldBack` | src/queues.c:561-592 | below that number, everything that waits has an override_pause_level below the pause level, or a fullscreen mode other than show in fullscreen; nothing suppressed waits |
| `Showing.ShownWhenThereIsRoom` | src/queues.c:561-592 | below that number, a waiting one that none of these fields holds back is on screen, or gone when it is to be skipped |
| `Showing.StaysOnScreen` | src/queues.c:502-598 | a row that no field asks to close or to push back stays, below that number, and in id order as long as the rows do not get fewer |
| `Showing.DisplayedClosesIff` | src/queues.c:129-159 | a row is closed if and only if it is unlocked and marked, to be skipped, timed out, or suppressed; time stands still under the mouse, and when idle outside fullscreen, but not for transient ones |
| `Showing.WaitingClosesOnly` | src/queues.c:561-592 | a waiting one is closed only when suppressed, or to be skipped and held back by nothing; suppressed ones do not wait below that number |
| `Showing.StartsAfterUpdate` | src/queues.c:129-159 | what comes on screen starts now; a paused row with a timeout starts at the clock; every other start is the one before |
| `Showing.ScreenIsInOrder` | src/notification.c:212-237 | the rows are in the order of the sort setting, on urgency, id and timestamp |
| `Showing.BestAreShown` | src/queues.c:600-625 | outside id order, and when no field holds back what waits, none of it belongs above a row |
| `Selection.UpdateIsSortAndTake` | src/queues.c:495-627 | best-k: when nothing left waiting is held back, displayed and waiting together are the survivors (computed from the queues before), in order, and the screen shows the first of them, as many as it has places |
| `Selection.NothingHeldBackIsSortAndTake` | src/queues.c:495-627 | the same under a condition on the queues before: no survivor is held back by pause or fullscreen |
| `Lineup.LineUpIsRight` | src/queues.c:502-598 | who is on screen and who waits after the first three loops, up to order on screen and start times, as decided on the queues before: those shown that may stay, then the first ready ones as places are free, and the overhang back in order |
| `Lineup.BestShownIff` | src/queues.c:495-627 | for every sorted start: nothing that could be shown waits behind something ranked worse on screen, if and only if, in that line-up of the queues before, each ready notification behind a held-back one has enough notifications ranked no worse, on screen or in front of that one, to fill the screen |
| `HeldBack.HeldBackHeadHides` | src/queues.c:606-614 | a state that meets every invariant and in which the update rests: a low notification is shown while a ready one of normal urgency waits behind a delayed critical one |
| `SortedRuns.ReplaceSortedIff` | src/queues.c:340-350 | a sorted queue stays sorted under a replacement in place if and only if the ranks of both neighbours allow it |
| `SortedRuns.ArrivalSortedIff` | src/queues.c:161-213 | an arrival under any id leaves both queues sorted if and only if it is inserted, sorted in again, or its rank fits between the neighbours of the slot it takes over; one that is closed at once fits unless that takes out another holder of its id and it does not fit where it moves up |
| `SortedRuns.StepSortedIff` | src/queues.c:161-700 | of all operations only an arrival that does not fit, and a reload of the rules that does not leave neighbours in order, put a queue out of order |
| `SortedRuns.RunSortedIff` | src/queues.c:161-700 | over any run under one order and inside one window, whatever ids clients ask for: both queues are sorted after every step if and only if every arrival fits and every reload of the rules leaves neighbours in order |
| `SortedRuns.EveryUpdateSelects` | src/queues.c:495-627 | after any such run from the empty queues that ends with distinct live ids, an update selects: best-k when no survivor is held back, and otherwise by the exact condition above |
| `SortedRuns.RaisedButNotShown` | src/queues.c:331-354 | a run in which a client raises its waiting notification to critical: it stays where it was, and the next update shows one of normal urgency instead |
| `Scheduling.RowsWithinLimit` | src/queues.c:549-598 | for a positive notification_limit, the rows drawn after an update, with "(N more)", are at most the limit |
| `Scheduling.SecondUpdateMovesNothing` | src/queues.c:495-627 | if the second loop closed nothing and the screen is settled, a second update at the same time only restarts paused display times |
| `Wakeup.NextDatachangeIsExact` | src/queues.c:629-665 | the result is the earliest pending event, never before the given time; -1 exactly when there is none |
| `Wakeup.AgeTextsStandStill` | src/notification.c:739-764 | with a threshold of whole seconds no age text changes before that moment, except a first appearance less than a second stale |
| `Wakeup.AgeTextTellsTheAge` | src/notification.c:739-764 | hours, minutes and seconds add up to the age since the full second of the timestamp, and there is a text exactly from a nonnegative threshold on |
| `MainLoop.Loop.AddTimeout` | src/dunst.c:176-176 | a new source id and the time it fires |
| `MainLoop.Loop.SetTimer` | src/dunst.c:150-184 | the timer part of a run: drop the pending timer on a wake-up, set one for the next change, at least one millisecond ahead, in whole milliseconds |
| `MainLoop.Loop.Run` | src/dunst.c:113-185 | a run takes over fullscreen and idle, updates the queues and sets the timer |
| `Daemon.RunCovers` | src/dunst.c:164-175 | when no two notifications on screen share an id, the timer set by a run fires at most 1 ms, plus what the run took, after anything displayed expires |
| `Daemon.TimerIsExact` | src/dunst.c:150-184 | the timer of a run fires within the millisecond before the first thing due on screen, or one millisecond later when that is nearer, a whole number of milliseconds away; no timer is left exactly when nothing is due |
| `Daemon.AtMostOneTimer` | src/dunst.c:113-185 | over any run of waiting, wake-ups and timers, whatever the queues hold: at most one timer, and next_timeout_id names it |
| `Daemon.ExpiryIsBounded` | src/dunst.c:113-185 | over any such run in which no two notifications on screen share an id when queues are updated: no unlocked notification with a positive timeout is still displayed later than start + timeout + 1 ms + the duration of a run |
| `Daemon.WakeUpsDecide` | src/dunst.c:113-185 | for that it is enough that at every wake-up no two that are displayed or wait share an id: timer runs keep it so |
| `Strings.FindIsFirst` | src/utils.c:66-90 | the position found is the first occurrence, and -1 exactly when there is none |
| `Strings.ReplaceAllStep` | src/utils.c:74-87 | replacing in the text up to the first occurrence and then behind the replacement is leftmost, non-overlapping replacement |
| `StringBuffer.StringReplaceAt` | src/utils.c:37-64 | the buffer, reused when the replacement is not longer and new otherwise, holds the text with that part replaced |
| `StringBuffer.StringReplaceAll` | src/utils.c:66-90 | the loop over the growing buffer computes leftmost non-overlapping replacement and ends, even when the replacement contains the needle |
| `StringBuffer.StringStripDelimited` | src/utils.c:126-152 | the in-place scan with its two indices and its tail count computes the functional form |
| `Strings.StripIsRightIff` | src/utils.c:126-152 | that form drops exactly what is delimited and keeps an unclosed tail if and only if no unclosed region directly follows a closed one |
| `Strings.StripGoesWrong` | src/utils.c:145-151 | on "<i><b" it returns "i><b" instead of "<b" |
| `Strings.StripIdle` | src/utils.c:126-152 | text without an opening delimiter is unchanged |
| `Markup.QuoteIsEncoding` | src/markup.c:24-35 | the five quoting passes together encode each special character once: no pass touches what another wrote |
| `Markup.UnquoteUndoesQuote` | src/markup.c:24-52 | unquoting undoes quoting, for every text |
| `Markup.StripModeIsIdempotent` | src/markup.c:313-343 | transforming in STRIP mode twice is transforming once, with or without ignore_newline |
| `Markup.EscapeLeavesOnlyEntities` | src/markup.c:295-311 | after escaping, every ampersand begins an entity |
| `Markup.EscapeIdleIff` | src/markup.c:247-311 | escaping leaves a text alone if and only if every ampersand in it begins an entity |
| `Markup.EscapeIsIdempotent` | src/markup.c:295-311 | escaping twice is escaping once |
| `Links.ImageStepCloses` | src/markup.c:142-225 | each image replacement lowers the number of '>', though the text may grow: markup_strip_img ends |
| `Links.ImagesGone` | src/markup.c:142-225 | its result contains no "<img", not even one that a replacement formed |
| `LinkTags.LinksGoneWhenApart` | src/markup.c:68-140 | in a text without "<<", "</<" and "</a<", with any other tags: when no closing tag begins inside an opening link tag, no "<a" is left, with nested, unclosed and unended links |
| `LinkTags.LinksGoneIff` | src/markup.c:68-140 | in such a text without nested links, no "<a" is left if and only if no link follows a closing tag that begins inside an opening one |
| `LinkTags.LinkStays` | src/markup.c:88-96 | "<a</a><a>x" keeps "<a>x" |
| `LinkTags.JoinedLinkStays` | src/markup.c:68-140 | a text with "<<" whose link tags are apart keeps a link: the first '<' joins what a stripped link leaves |
| `Links.FullModeHasNoImages` | src/markup.c:313-343 | text transformed in FULL mode contains no "<img" |
| `FullMarkup.FullModeKeeps` | src/markup.c:313-343 | FULL mode shows a text without line breaks, links, images and unsupported ampersands as it is, other tags included |
| `FullMarkup.FullModeEscapes` | src/markup.c:295-343 | an ampersand that begins no entity is shown as one |
| `FullMarkup.EntityIff` | src/markup.c:247-287 | an entity is one of five names, or "&#" with decimal or "&#x" with hexadecimal digits and a semicolon, and nothing else |
| `FullMarkup.FullModeBreaks` | src/markup.c:58-66 | each spelling of a line break becomes a newline |
| `FullMarkup.LinkIsItsText` | src/markup.c:68-140 | a whole link turns into its text, and its URL is collected with it, wherever it stands |
| `FullMarkup.LinkUrlIsHref` | src/markup.c:95-107 | the URL is the value of the first href in the tag |
| `FullMarkup.NoHrefNoUrl` | src/markup.c:95-107 | without href no URL is collected |
| `FullMarkup.UrlIsListed` | src/markup.c:121-135 | a URL gets a line of its own behind its text in brackets, from which brackets are dropped and in which newlines are spelled out |
| `FullMarkup.UnendedLink` | src/markup.c:82-87 | a link tag without end takes the rest of the text, and no URL |
| `FullMarkup.CrossedLink` | src/markup.c:88-93 | a closing tag before the end of the opening one: the link is dropped and the search stops |
| `FullMarkup.FullModeLinks` | src/markup.c:313-343 | the whole of FULL mode on a text with one link shows its text |
| `Images.ImageIsItsLabel` | src/markup.c:142-225 | an image turns into its text, or "[image]", and its URL is collected with that, wherever it stands |
| `Images.ImageTextsAreValues` | src/markup.c:159-197 | what an image provides are values of alt and src closed inside its tag; given both, neither reaches into the other |
| `Images.ImageWithBoth` | src/markup.c:159-197 | alt and src in either order are both found |
| `Images.ImageWithOne` | src/markup.c:159-197 | one of them in the tag is found, whatever follows the tag |
| `Images.ImageWithNone` | src/markup.c:159-203 | neither in the tag: nothing is provided |
| `Images.UnendedImage` | src/markup.c:152-157 | an image tag without end takes the rest of the text |
| `Images.FullModeImages` | src/markup.c:313-343 | the whole of FULL mode on a text with one image shows its label |
| `FullMarkup.StripModeDropsTags` | src/markup.c:227-238 | STRIP mode drops a tag that is no line break and shows the rest character by character |
| `FullMarkup.StripModeBreaks` | src/markup.c:58-66 | and turns line breaks into newlines |
| `FullMarkup.StripModeKeepsQuoted` | src/markup.c:227-238 | and leaves quoted text as it would be shown without markup |
| `Specifiers.NoMarkupIsPerCharacter` | src/markup.c:24-35 | without markup every character is shown for itself, five by their entities, and a newline as a space under ignore_newline |
| `MarkupBuffer.MarkupQuote` | src/markup.c:24-35 | the in-place passes compute quoting |
| `MarkupBuffer.MarkupUnquote` | src/markup.c:41-52 | the in-place passes compute unquoting |
| `MarkupBuffer.MarkupBr2Nl` | src/markup.c:58-66 | the three break tags become newlines |
| `MarkupBuffer.MarkupStrip` | src/markup.c:227-238 | tags are stripped and entities unquoted |
| `MarkupBuffer.MarkupIsEntity` | src/markup.c:247-287 | the moving cursor decides whether an entity begins there |
| `MarkupBuffer.MarkupEscapeUnsupported` | src/markup.c:295-311 | the scan over the growing buffer escapes every ampersand that begins no entity |
| `MarkupBuffer.MarkupStripImg` | src/markup.c:142-225 | the restarting search over the growing buffer computes the recursive form, with the URLs |
| `MarkupBuffer.MarkupStripA` | src/markup.c:68-140 | the loop computes the recursive form, with the URLs |
| `MarkupBuffer.MarkupTransform` | src/markup.c:313-343 | the passes of each mode in order, and newlines to spaces when asked |
| `Format.FieldStandsForItself` | src/notification.c:571-687 | simultaneous substitution: a specifier contributes its field and the text around it expands as if the field were not there, so a '%' inside a field is never read again |
| `Format.MessageIsBounded` | src/notification.c:679-686 | the message is a prefix of the expansion, at most 50000 characters; below that only trailing white space is cut, and all of it |
| `Specifiers.TextSpecifiers` | src/notification.c:587-621 | %a, %s, %c and %S stand for appname, summary, category and stack tag without markup, wherever they are in the template |
| `Specifiers.IconBaseSpecifier` | src/notification.c:622-630 | %I for the base name of the icon |
| `Specifiers.IconNameSpecifier` | src/notification.c:631-637 | %i for the icon as given |
| `Specifiers.BodySpecifier` | src/notification.c:601-607 | %b for the body in the markup mode of the notification |
| `Specifiers.ProgressSpecifiers` | src/notification.c:638-657 | %p for the decimal numeral of progress, at least three wide, with a percent sign in brackets, %n for the numeral, and nothing for -1 |
| `Specifiers.OtherText` | src/notification.c:658-676 | %% stands for one percent sign, an unknown or trailing one for itself, and all other characters for themselves |
| `Specifiers.CompleteTexts` | src/notification.c:578-586 | text without percent signs, and text that ends in a specifier, is complete: what follows it is read on its own |
| `Specifiers.MessageLosesOnlyWhiteSpace` | src/notification.c:679-686 | what is cut off is blanks, tabs, newlines, returns and form feeds at the end, or what is beyond 50000 characters |
| `Format.ReplaceSingleField` | src/notification.c:415-436 | the two characters at the needle become the transformed field |
| `Format.ExpandHere` | src/notification.c:579-677 | one turn of the scan: which field the character stands for, and where the search goes on |
| `Format.ExpandInPlace` | src/notification.c:579-677 | the scan that rewrites its own buffer computes the one-pass expansion of the template, and ends |
| `Format.FormatMessage` | src/notification.c:571-687 | newline and tab escapes, expansion, trimming and truncation, in this order |
| `Rules.ReloadForgetsThePast` | src/rules.c:203-211 | after any sequence of rule lists, a field that did not arrive as the unset marker is what the last list alone makes of the arrival values, when the rules of that last list match on such fields only |
| `Rules.ReloadForgetsIff` | src/queues.c:687-700 | for rules without filters this holds for a field if and only if it did not arrive as the marker |
| `Rules.MarkerIsNotRestored` | src/rules.c:25-142 | a field that arrived as the marker keeps what an earlier list set, after a reload with no rules |
| `Rules.ApplyRemembers` | src/rules.c:25-142 | applying a rule keeps every restorable arrival value at hand: in the field, or in the saved original |
| `RuleFilters.LastRuleDecides` | src/rules.c:339-352 | a field is what the last rule gives it, exactly when that rule is enabled, each of its ten filters holds of its own field as the rules before left it, and it gives a value; the first value overwritten is kept aside |
| `RuleFilters.ReloadGivesBack` | src/queues.c:687-700 | a reload without rules gives back what was kept aside and leaves the rest alone |
| `Rules.RuledNotification.RuleApply` | src/rules.c:38-142 | field by field in the source's order: save the first value overwritten, then assign |
| `Rules.RuledNotification.RuleApplyAll` | src/rules.c:203-211 | every matching rule is applied in order, each seeing the effect of those before |
| `Rules.RuledNotification.ReapplyRules` | src/queues.c:687-700 | the saved original is applied without saving, then all rules |
| `Window.NoGapAgreesIff` | src/input.c:24-65 | without a gap, every painted pixel row is mapped back to its notification if and only if there is a frame or the separator height is even |
| `Window.GapAgreesIff` | src/input.c:24-65 | with a gap, for all lists of rows if and only if there is no frame, or a top and a bottom corner are set |
| `Window.ClicksTileTheWindow` | src/input.c:40-65 | without gaps the click intervals tile the window from the top: all of it for an even separator, all but the last pixel for an odd one |
| `Window.ExtraRowMovesNothing` | src/draw.c:1041-1054 | a further row at the bottom moves no body above it |
| `Surface.BodyStandsAt` | src/draw.c:934-969 | where each row is painted: frame, the heights above, and separators; with a gap, frames only next to rounded corners |
| `Surface.RowsFollow` | src/draw.c:934-969 | no two rows overlap, and the distance between neighbours is the separator, or the gap with its frames |
| `Surface.WindowFits` | src/draw.c:340-377 | the window ends one frame below the last row; with a gap it is too high by every frame that is missing |
| `Surface.WindowFitsIff` | src/draw.c:340-377 | with a gap it ends one frame below the last row if and only if there is no frame, or a top and a bottom corner are rounded, or a single row has a rounded top |
| `Surface.TextRow` | src/draw.c:488-510 | a row without icon has the height of text, bar and padding, within the bounds |
| `Surface.RowWithIconBeside` | src/draw.c:488-510 | an icon beside the text: the higher of the two |
| `Surface.RowWithIconOnTop` | src/draw.c:488-510 | an icon on top adds to the text, with the padding set between them |
| `Surface.MoreRow` | src/draw.c:298-338 | the "(N more)" row has the height of its text, but keeps the padding below an icon on top that is not drawn |
| `Screen.RowsInOrder` | src/draw.c:455-485 | the rows are what is displayed, in order, and the count in the look of the first waiting one below, or behind the last text when one row is allowed |
| `Screen.RowsOfQueues` | src/draw.c:455-485 | the rows show different objects and are as many as the limit on rows counts |
| `Screen.HiddenAreAnnouncedOnce` | src/draw.c:455-485 | with something on screen, the number of waiting ones is announced exactly once when indicate_hidden is set and any wait, and never otherwise |
| `Screen.DrawnIsClickable` | src/input.c:40-65 | from drawing to clicking: on an aligned geometry each pixel row painted for a displayed notification is mapped to it, with or without a "(N more)" row |
| `Screen.Screen.CreateLayouts` | src/draw.c:455-485 | one row per displayed notification; the count in the text when the limit is 1, in a further row otherwise |
| `Screen.Screen.CalculateNotificationDimensions` | src/draw.c:298-338 | the height of one row, written to displayed_height |
| `Screen.Screen.CalculateDimensions` | src/draw.c:340-377 | the window height, and every displayed_height written |
| `Screen.Screen.RenderLayout` | src/draw.c:934-969 | the body painted and the vertical position handed on |
| `Screen.Screen.RenderLayouts` | src/draw.c:1041-1054 | the loop with its corner flags paints the bodies of the recursive form |
| `Screen.Screen.Draw` | src/draw.c:1021-1060 | the rows of the queues are sized, stored and painted |
| `Screen.Screen.GetNotificationAt` | src/input.c:40-65 | the loop over displayed finds what the recursive search over stored heights finds |
| `IconThemes.LoadIsRight` | src/icon-lookup.c:47-196 | loading a theme ends on cyclic graphs; each theme added is complete, reached from the one asked for, and added once, except for a second copy of the one asked for |
| `IconThemes.LoadKeepsLinks` | src/icon-lookup.c:130-156 | every inherits_index entry is -1 when that theme cannot be loaded, and otherwise the index of the first theme of that name |
| `IconThemes.LoadedNames` | src/icon-lookup.c:47-196 | exactly the themes reached over loadable ones are added |
| `IconThemes.StartLoadsWhatIsReached` | src/draw.c:48-66 | after start-up all links are right, and a theme is loaded if and only if it is reached from a configured theme, or from hicolor when none of those can be loaded |
| `IconSearch.FoundInFirstDirectory` | src/icon-lookup.c:183-196 | a theme is loaded from the first directory of the path that has a file for it with a section |
| `IconSearch.LinksFollowTheFile` | src/icon-lookup.c:128-155 | after start-up the links of every theme follow its file in order: hicolor when it names none, nothing for hicolor itself; each is the first loaded theme of that name, or -1 when no directory has it |
| `IconSearch.IconIsOfTheFirstThemeAsked` | src/icon-lookup.c:289-324 | the icon found is that of the first theme that has it, where each configured theme that is there is asked in turn, followed by those its file inherits, and hicolor only when none is there |
| `IconThemes.LoadedOnceIff` | src/draw.c:48-66 | each theme is loaded once if and only if no configured theme is reached from one configured before it |
| `IconThemes.SecondCopy` | src/draw.c:52-59 | two configured themes of which the first inherits the second: it is loaded twice |
| `IconThemes.SkippingFirstIsHarmless` | src/icon-lookup.c:289-324 | treating inherited index 0 as missing never changes the icon found after start-up, since theme 0 is always asked first |
| `IconThemes.ThemeList.GetIconTheme` | src/icon-lookup.c:25-32 | the first theme of that directory name, or -1 |
| `IconThemes.ThemeList.LoadIconThemeFromDir` | src/icon-lookup.c:47-162 | an unreadable or empty file changes nothing; otherwise the theme is appended and its parents are looked up or loaded, recursively |
| `IconThemes.ThemeList.LoadIconTheme` | src/icon-lookup.c:183-196 | the first directory of the path that has the theme is used |
| `IconThemes.ThemeList.LoadIconThemes` | src/draw.c:48-66 | all configured themes in order, hicolor when none can be loaded |
| `IconThemes.ThemeList.FindIconInThemeWithInherit` | src/icon-lookup.c:289-304 | the theme itself, then its inherited themes in order, passing over indexes up to 0 |
| `IconThemes.ThemeList.FindIcon` | src/icon-lookup.c:307-324 | the first default theme that has the icon, with its inherited themes |

## Left out

Stated with less than could be said:

- LinkTags.LinksGoneIff: is exact where links are not nested and a '<' is not followed by another with at most "/a" in between. For nested links LinkTags.LinksGoneWhenApart gives one direction; the exact condition would have to say which closing tag each link uses up, which is the scan itself.
- Daemon.ExpiryIsBounded: needs displayed notifications with distinct ids at every run, because otherwise an update may close another holder (Shadowing.OverdueStays). It adds the duration of a run to the bound, because a run reads the clock twice; with instantaneous runs the bound is start + timeout + 1 ms. Timers are assumed to fire on time.
- Rules.ReloadForgetsThePast: excludes the script list and new_icon, which rules do not set by saved assignment, and needs a last rule list that matches on restorable fields only.
- Images.ImageWithBoth: leaves out values that end in '=', because behind such a value the closing quote can read as the start of an attribute; what is found then is still a value inside the tag (Images.ImageTextsAreValues).
- Stacking.SayingItAgainStacks: is about arrivals that fullscreen mode does not suppress, because those are closed as they arrive (Stacking.SuppressedOnArrival).
- Scheduling.SecondUpdateMovesNothing: needs a screen with no pending marks, no skip_display and no negative timeouts, because those are handled one update later.
- QueueManager.Manager.StackDuplicate: takes the notifications whose icon file changed as a parameter, because comparing them stats files.
- QueueManager.Manager.DoAction: says that the menu or the browser is to be opened and takes the URLs of the text as given, because extracting them and opening them is not part of this model; the choice made in the menu is InvokeAction.
- Rules.RuledNotification.RuleApply: leaves out new_icon and the script list, because the one loads a file and the other is appended to, not saved.
- SortedRuns.EveryUpdateSelects: needs distinct ids among what is displayed or waits at the end, and all timestamps of the run inside one window of 2^31 microseconds in update order, because outside it the comparator is no order; the theorems on conservation, signals, closing and expiry need no window.
- QueueManager.Manager.Notify: takes the decoded notification as given, because decoding hints and applying rules on arrival is not modelled together with the queues.
- IconThemes.ThemeList.LoadIconThemes: starts from an empty list, because it is called once, when drawing is set up.

Not modelled:

- Aliasing: notifications are values in the queues, so a pointer that a context menu keeps is represented by the `locked` flag only.
- Reference counts and freeing: objects that leave the queues are recorded with their cause instead.
- The text of a menu line: an action chosen in the menu is given by its id and its name.
- Scripts, dmenu, the browser, the context-menu thread, files and stat; whether an icon file changed is a parameter of stacking.
- D-Bus marshalling, properties and RuleList; a signal is an entry in a log, and sending never fails.
- Drawing beyond vertical positions, text measuring, widths, colours, scales other than 1, X11 and Wayland.
- Re-entrant runs through display round trips: a run is atomic.
- Negative notification_limit, and overflow of the id counter and of 64-bit time.
- `notification_init` (defaults and timeouts after rules), and URL extraction from plain text.
- Pattern matching inside rule filters: any function of pattern and text.
- Parsing of index.theme and of its Inherits list into entries, theme directories with their sizes, and the environment variables that make up the search path.
- Character encodings: text is a sequence of characters, cut and compared one by one.
- Option tables, settings validation, logging and ini files, which are mostly case by case.
