/** What an update closes: exactly which live notifications leave the two live queues,
    decided on the queues the update starts from. */
module Closing {
  import opened Notifications
  import opened SortedQueue
  import opened Seeping
  import opened QueueSpec
  import opened Conservation
  import opened Distinct
  import opened Update
  import opened Scheduling

  // ---------- the decision, on the queues before the update ----------

  /** A displayed notification is closed: no menu holds it, and it is marked, done or
      suppressed by fullscreen mode. */
  predicate Closes(n: Note, status: Status, time: int) {
    && !n.locked
    && (n.closeMark != 0 || n.removeMark != 0 || IsFinished(n, status, time) || Suppressed(n, status))
  }

  /** A displayed notification has to go back to waiting. */
  predicate Returns(n: Note, status: Status) {
    !n.locked && !IsReady(n, status, true)
  }

  /** A waiting notification that is closed without being shown when its turn comes. */
  predicate Skips(n: Note, status: Status) {
    Suppressed(n, status) || (IsReady(n, status, false) && n.skipDisplay && !n.redisplayed)
  }

  /** A waiting notification that takes a place on screen when its turn comes. */
  predicate TakesPlace(n: Note, status: Status) {
    IsReady(n, status, false) && !Skips(n, status)
  }

  function Staying(s: seq<Note>, status: Status, time: int): seq<Note> {
    if s == [] then []
    else (if Closes(s[0], status, time) then [] else [s[0]]) + Staying(s[1..], status, time)
  }

  function Shown(s: seq<Note>, status: Status, time: int): seq<Note> {
    if s == [] then []
    else (if Closes(s[0], status, time) || Returns(s[0], status) then [] else [s[0]]) + Shown(s[1..], status, time)
  }

  function Returning(s: seq<Note>, status: Status, time: int): seq<Note> {
    if s == [] then []
    else (if !Closes(s[0], status, time) && Returns(s[0], status) then [s[0]] else []) + Returning(s[1..], status, time)
  }

  function PlacesTaken(s: seq<Note>, status: Status): nat {
    if s == [] then 0 else (if TakesPlace(s[0], status) then 1 else 0) + PlacesTaken(s[1..], status)
  }

  /** How many places the screen has: one less when the "(N more)" row takes one. */
  function Places(cfg: Settings, status: Status, time: int, q: Queues): int {
    Limit(cfg, q.(displayed := Staying(q.displayed, status, time)))
  }

  /** How many of them are free for waiting notifications. */
  function Room(cfg: Settings, status: Status, time: int, q: Queues): int {
    Places(cfg, status, time, q) - |Shown(q.displayed, status, time)|
  }

  /** The waiting notification at `j` is closed: it is to be skipped, and those in front of it
      leave a place free. */
  predicate ClosesWaiting(w: seq<Note>, j: nat, status: Status, room: int)
    requires j < |w|
  {
    Skips(w[j], status) && PlacesTaken(w[..j], status) < room
  }

  /** What keeps waiting or is shown, from position `j` on. */
  function StayingFrom(w: seq<Note>, j: nat, status: Status, room: int): seq<Note>
    requires j <= |w|
    decreases |w| - j
  {
    if j == |w| then []
    else (if ClosesWaiting(w, j, status, room) then [] else [w[j]]) + StayingFrom(w, j + 1, status, room)
  }

  /** The live notifications of `q` that an update leaves alive. */
  function Survivors(cfg: Settings, status: Status, time: int, q: Queues): seq<Note> {
    Staying(q.displayed, status, time) + StayingFrom(q.waiting, 0, status, Room(cfg, status, time, q))
  }

  // ---------- keys ----------

  ghost predicate HasKey(s: seq<Note>, key: nat) {
    exists n :: n in s && n.key == key
  }

  /** The object is displayed or waits. */
  ghost predicate LiveKey(q: Queues, key: nat) {
    HasKey(q.displayed, key) || HasKey(q.waiting, key)
  }

  lemma KeyOfConcat(s: seq<Note>, t: seq<Note>, key: nat)
    ensures HasKey(s + t, key) <==> HasKey(s, key) || HasKey(t, key)
  {
    if HasKey(s, key) {
      var n :| n in s && n.key == key;
      assert n in s + t;
    }
    if HasKey(t, key) {
      var n :| n in t && n.key == key;
      assert n in s + t;
    }
  }

  lemma KeyOfOne(n: Note, key: nat)
    ensures HasKey([n], key) <==> n.key == key
  {
    assert n in [n];
  }

  lemma KeyOfCons(n: Note, s: seq<Note>, key: nat)
    ensures HasKey([n] + s, key) <==> n.key == key || HasKey(s, key)
  {
    KeyOfOne(n, key);
    KeyOfConcat([n], s, key);
  }

  lemma KeyOfInsert(cfg: Settings, s: seq<Note>, n: Note, key: nat)
    ensures HasKey(InsertSorted(cfg, s, n), key) <==> n.key == key || HasKey(s, key)
  {
    InsertMembers(cfg, s, n);
    if n.key == key { assert n in InsertSorted(cfg, s, n); }
    if HasKey(s, key) {
      var m :| m in s && m.key == key;
      assert m in InsertSorted(cfg, s, n);
    }
  }

  lemma KeyOfRemove(s: seq<Note>, i: nat, key: nat)
    requires i < |s|
    ensures HasKey(s, key) <==> s[i].key == key || HasKey(RemoveAt(s, i), key)
  {
    assert s == s[..i] + ([s[i]] + s[i + 1..]);
    KeyOfConcat(s[..i], [s[i]] + s[i + 1..], key);
    KeyOfCons(s[i], s[i + 1..], key);
    KeyOfConcat(s[..i], s[i + 1..], key);
  }

  lemma LookOfCons(n: Note, s: seq<Note>, status: Status, clock: nat -> int)
    ensures Look([n] + s, status, clock) == [LookAt(n, status, clock)] + Look(s, status, clock)
  {
  }

  lemma {:induction false} KeyOfLook(s: seq<Note>, status: Status, clock: nat -> int, key: nat)
    ensures HasKey(Look(s, status, clock), key) <==> HasKey(s, key)
  {
    if s != [] {
      assert s == [s[0]] + s[1..];
      LookOfCons(s[0], s[1..], status, clock);
      KeyOfLook(s[1..], status, clock, key);
      KeyOfCons(s[0], s[1..], key);
      KeyOfCons(LookAt(s[0], status, clock), Look(s[1..], status, clock), key);
    }
  }

  lemma {:induction false} KeyOfStaying(s: seq<Note>, status: Status, time: int, key: nat)
    ensures HasKey(Staying(s, status, time), key)
            <==> HasKey(Shown(s, status, time), key) || HasKey(Returning(s, status, time), key)
    ensures |Staying(s, status, time)| == |Shown(s, status, time)| + |Returning(s, status, time)|
  {
    if s != [] {
      KeyOfStaying(s[1..], status, time, key);
      KeyOfCons(s[0], Staying(s[1..], status, time), key);
      KeyOfCons(s[0], Shown(s[1..], status, time), key);
      KeyOfCons(s[0], Returning(s[1..], status, time), key);
    }
  }

  // ---------- the first loop ----------

  lemma CloseShown(cfg: Settings, q: Queues, c: Queues, i: nat, n: Note, reason: int)
    requires Once(Id, q) && i < |q.displayed| && c == SetDisplayed(q, i, n) && SameIdentity(q.displayed[i], n)
    ensures var r := CloseId(cfg, c, n.id, reason); r.displayed == RemoveAt(q.displayed, i) && r.waiting == q.waiting
    ensures var r := RemoveId(cfg, c, n.id, reason); r.displayed == RemoveAt(q.displayed, i) && r.waiting == q.waiting
  {
    SetDisplayedShrinks(q, i, n);
    OnceShrinks(Id, q, c);
    UniqueIndex(c, i);
    IdInOneQueue(c, n.id);
    CloseIdQueues(cfg, c, n.id, reason);
    assert RemoveAt(c.displayed, i) == RemoveAt(q.displayed, i);
  }

  /** What a turn of the first loop makes of the notification at `i`. */
  ghost predicate SweepFate(cfg: Settings, status: Status, time: int, clock: nat -> int, q: Queues, i: nat,
                            s: (Queues, nat))
    requires i < |q.displayed|
  {
    var n := q.displayed[i];
    if Closes(n, status, time) then
      s.1 == i && s.0.displayed == RemoveAt(q.displayed, i) && s.0.waiting == q.waiting
    else if Returns(n, status) then
      && s.1 == i && s.0.displayed == RemoveAt(q.displayed, i)
      && s.0.waiting == InsertSorted(cfg, q.waiting, LookAt(n, status, clock))
    else
      s.1 == i + 1 && s.0.displayed == q.displayed[i := LookAt(n, status, clock)] && s.0.waiting == q.waiting
  }

  lemma SweepStepFate(cfg: Settings, status: Status, time: int, clock: nat -> int, q: Queues, i: nat)
    requires Once(Id, q) && i < |q.displayed|
    ensures SweepFate(cfg, status, time, clock, q, i, SweepStep(cfg, status, time, clock, q, i))
  {
    var n := q.displayed[i];
    assert SetDisplayed(q, i, n) == q;
    if n.locked {
    } else if n.closeMark != 0 {
      CloseShown(cfg, q, SetDisplayed(q, i, n.(closeMark := 0)), i, n.(closeMark := 0), n.closeMark);
    } else if n.removeMark != 0 {
      CloseShown(cfg, q, SetDisplayed(q, i, n.(removeMark := 0)), i, n.(removeMark := 0), n.removeMark);
    } else {
      SweepUnmarkedFate(cfg, status, time, clock, q, i);
    }
  }

  lemma SweepUnmarkedFate(cfg: Settings, status: Status, time: int, clock: nat -> int, q: Queues, i: nat)
    requires Once(Id, q) && i < |q.displayed|
    requires var n := q.displayed[i]; !n.locked && n.closeMark == 0 && n.removeMark == 0
    ensures SweepFate(cfg, status, time, clock, q, i, SweepUnmarked(cfg, status, time, clock, q, i))
  {
    var n := q.displayed[i];
    if IsFinished(n, status, time) {
      assert SetDisplayed(q, i, n) == q;
      CloseShown(cfg, q, q, i, n, REASON_TIME);
    } else {
      var t := Touched(n, status, clock(n.key));
      CloseShown(cfg, q, SetDisplayed(q, i, t), i, t, REASON_UNDEF);
      assert RemoveAt(q.displayed[i := t], i) == RemoveAt(q.displayed, i);
    }
  }

  function InsertAll(cfg: Settings, w: seq<Note>, s: seq<Note>): (r: seq<Note>)
    ensures |r| == |w| + |s|
    decreases |s|
  {
    if s == [] then w else InsertAll(cfg, InsertSorted(cfg, w, s[0]), s[1..])
  }

  lemma InsertAllCons(cfg: Settings, w: seq<Note>, n: Note, s: seq<Note>)
    ensures InsertAll(cfg, w, [n] + s) == InsertAll(cfg, InsertSorted(cfg, w, n), s)
  {
    assert ([n] + s)[1..] == s;
  }

  /** Displayed from `i` on is split three ways. */
  ghost predicate Splits(cfg: Settings, status: Status, time: int, clock: nat -> int, q: Queues, i: nat, r: Queues)
    requires i <= |q.displayed|
  {
    var rest := q.displayed[i..];
    && r.displayed == q.displayed[..i] + Look(Shown(rest, status, time), status, clock)
    && r.waiting == InsertAll(cfg, q.waiting, Look(Returning(rest, status, time), status, clock))
  }

  lemma SplitGone(s: seq<Note>, i: nat, status: Status, time: int)
    requires i < |s| && (Closes(s[i], status, time) || Returns(s[i], status))
    ensures Shown(s[i..], status, time) == Shown(s[i + 1..], status, time)
  {
    assert s[i..][1..] == s[i + 1..];
  }

  lemma SplitReturning(s: seq<Note>, i: nat, status: Status, time: int, clock: nat -> int)
    requires i < |s|
    ensures var later := Look(Returning(s[i + 1..], status, time), status, clock);
            Look(Returning(s[i..], status, time), status, clock)
            == if !Closes(s[i], status, time) && Returns(s[i], status)
               then [LookAt(s[i], status, clock)] + later else later
  {
    assert s[i..][1..] == s[i + 1..];
    LookOfCons(s[i], Returning(s[i + 1..], status, time), status, clock);
  }

  lemma Regrouped(a: seq<Note>, n: Note, b: seq<Note>)
    ensures (a + [n]) + b == a + ([n] + b)
  {
  }

  lemma SplitStays(s: seq<Note>, i: nat, status: Status, time: int, clock: nat -> int)
    requires i < |s| && !Closes(s[i], status, time) && !Returns(s[i], status)
    ensures s[i := LookAt(s[i], status, clock)][..i + 1] + Look(Shown(s[i + 1..], status, time), status, clock)
            == s[..i] + Look(Shown(s[i..], status, time), status, clock)
  {
    var l, later := LookAt(s[i], status, clock), Shown(s[i + 1..], status, time);
    assert s[i..][1..] == s[i + 1..];
    assert Shown(s[i..], status, time) == [s[i]] + later;
    LookOfCons(s[i], later, status, clock);
    assert s[i := l][..i + 1] == s[..i] + [l];
    Regrouped(s[..i], l, Look(later, status, clock));
  }

  lemma SplitsEarlier(cfg: Settings, status: Status, time: int, clock: nat -> int, q: Queues, i: nat,
                      s: (Queues, nat), r: Queues)
    requires i < |q.displayed| && SweepFate(cfg, status, time, clock, q, i, s)
    requires s.1 <= |s.0.displayed| && Splits(cfg, status, time, clock, s.0, s.1, r)
    ensures Splits(cfg, status, time, clock, q, i, r)
  {
    SplitReturning(q.displayed, i, status, time, clock);
    assert s.0.displayed[s.1..] == q.displayed[i + 1..];
    if s.1 == i {
      SplitGone(q.displayed, i, status, time);
      assert s.0.displayed[..i] == q.displayed[..i];
      InsertAllCons(cfg, q.waiting, LookAt(q.displayed[i], status, clock),
                    Look(Returning(q.displayed[i + 1..], status, time), status, clock));
    } else {
      SplitStays(q.displayed, i, status, time, clock);
    }
  }

  lemma {:induction false} SweepSplits(cfg: Settings, status: Status, time: int, clock: nat -> int, q: Queues, i: nat)
    requires Once(Id, q) && i <= |q.displayed|
    ensures Splits(cfg, status, time, clock, q, i, Sweep(cfg, status, time, clock, q, i))
    decreases |q.displayed| - i
  {
    if i == |q.displayed| {
      assert q.displayed[i..] == [];
    } else {
      var s := SweepStep(cfg, status, time, clock, q, i);
      SweepStepFate(cfg, status, time, clock, q, i);
      SweepStepThins(cfg, status, time, clock, q, i);
      OnceShrinks(Id, q, s.0);
      SweepSplits(cfg, status, time, clock, s.0, s.1);
      SplitsEarlier(cfg, status, time, clock, q, i, s, Sweep(cfg, status, time, clock, s.0, s.1));
    }
  }

  // ---------- the second loop ----------

  /** What the second loop leaves alive of the waiting notifications it comes to. */
  function Kept(w: seq<Note>, status: Status, room: int): seq<Note> {
    if w == [] || room <= 0 then w
    else if Skips(w[0], status) then Kept(w[1..], status, room)
    else [w[0]] + Kept(w[1..], status, if TakesPlace(w[0], status) then room - 1 else room)
  }

  lemma PromoteStepFate(cfg: Settings, status: Status, time: int, q: Queues, i: nat)
    requires Once(Id, q) && i < |q.waiting|
    ensures var n, s := q.waiting[i], PromoteStep(cfg, status, time, q, i);
            if Skips(n, status) then
              s.1 == i && s.0.displayed == q.displayed && s.0.waiting == RemoveAt(q.waiting, i)
            else if TakesPlace(n, status) then
              && s.1 == i && s.0.waiting == RemoveAt(q.waiting, i)
              && s.0.displayed == InsertSorted(cfg, q.displayed, n.(start := time))
            else
              s == (q, i + 1)
  {
    CloseStartedTakes(cfg, q, i, time, REASON_UNDEF);
    CloseStartedTakes(cfg, q, i, time, REASON_USER);
  }

  ghost predicate KeptKey(status: Status, limit: int, q: Queues, i: nat, key: nat)
    requires i <= |q.waiting|
  {
    || HasKey(q.displayed, key)
    || HasKey(q.waiting[..i], key)
    || HasKey(Kept(q.waiting[i..], status, limit - |q.displayed|), key)
  }

  lemma RemoveSlices(w: seq<Note>, i: nat)
    requires i < |w|
    ensures RemoveAt(w, i)[..i] == w[..i] && RemoveAt(w, i)[i..] == w[i + 1..] == w[i..][1..]
  {
  }

  lemma ShownStepKeys(cfg: Settings, status: Status, limit: int, q: Queues, r: Queues, i: nat, n: Note, key: nat)
    requires i < |q.waiting| && |q.displayed| < limit && TakesPlace(q.waiting[i], status) && n.key == q.waiting[i].key
    requires r.waiting == RemoveAt(q.waiting, i) && r.displayed == InsertSorted(cfg, q.displayed, n)
    ensures KeptKey(status, limit, r, i, key) <==> KeptKey(status, limit, q, i, key)
  {
    RemoveSlices(q.waiting, i);
    KeyOfInsert(cfg, q.displayed, n, key);
    KeyOfCons(q.waiting[i], Kept(q.waiting[i + 1..], status, limit - |q.displayed| - 1), key);
  }

  lemma PassedStepKeys(status: Status, limit: int, q: Queues, i: nat, key: nat)
    requires i < |q.waiting| && |q.displayed| < limit
    requires !TakesPlace(q.waiting[i], status) && !Skips(q.waiting[i], status)
    ensures KeptKey(status, limit, q, i + 1, key) <==> KeptKey(status, limit, q, i, key)
  {
    var n := q.waiting[i];
    assert q.waiting[i..][1..] == q.waiting[i + 1..] && q.waiting[..i + 1] == q.waiting[..i] + [n];
    KeyOfConcat(q.waiting[..i], [n], key);
    KeyOfOne(n, key);
    KeyOfCons(n, Kept(q.waiting[i + 1..], status, limit - |q.displayed|), key);
  }

  lemma SkippedStepKeys(status: Status, limit: int, q: Queues, r: Queues, i: nat, key: nat)
    requires i < |q.waiting| && |q.displayed| < limit && Skips(q.waiting[i], status)
    requires r.waiting == RemoveAt(q.waiting, i) && r.displayed == q.displayed
    ensures KeptKey(status, limit, r, i, key) <==> KeptKey(status, limit, q, i, key)
  {
    RemoveSlices(q.waiting, i);
  }

  lemma PromoteStepKeys(cfg: Settings, status: Status, time: int, limit: int, q: Queues, i: nat, key: nat)
    requires Once(Id, q) && i < |q.waiting| && |q.displayed| < limit
    ensures var s := PromoteStep(cfg, status, time, q, i);
            KeptKey(status, limit, s.0, s.1, key) <==> KeptKey(status, limit, q, i, key)
  {
    var n, s := q.waiting[i], PromoteStep(cfg, status, time, q, i);
    PromoteStepFate(cfg, status, time, q, i);
    if Skips(n, status) {
      SkippedStepKeys(status, limit, q, s.0, i, key);
    } else if TakesPlace(n, status) {
      ShownStepKeys(cfg, status, limit, q, s.0, i, n.(start := time), key);
    } else {
      PassedStepKeys(status, limit, q, i, key);
    }
  }

  lemma {:induction false} PromoteKeys(cfg: Settings, status: Status, time: int, limit: int, q: Queues, i: nat,
                                       key: nat)
    requires Once(Id, q) && i <= |q.waiting|
    ensures LiveKey(Promote(cfg, status, time, limit, q, i), key) <==> KeptKey(status, limit, q, i, key)
    decreases |q.waiting| - i
  {
    if i == |q.waiting| || |q.displayed| >= limit {
      assert q.waiting == q.waiting[..i] + q.waiting[i..];
      KeyOfConcat(q.waiting[..i], q.waiting[i..], key);
    } else {
      var s := PromoteStep(cfg, status, time, q, i);
      PromoteStepKeys(cfg, status, time, limit, q, i, key);
      PromoteStepShrinks(cfg, status, time, q, i);
      OnceShrinks(Id, q, s.0);
      PromoteKeys(cfg, status, time, limit, s.0, s.1, key);
    }
  }

  /** One that returned from the screen waits without being skipped or taking a place. */
  lemma {:induction false} KeptInsert(cfg: Settings, w: seq<Note>, n: Note, status: Status, room: int, key: nat)
    requires !Skips(n, status) && !TakesPlace(n, status)
    ensures HasKey(Kept(InsertSorted(cfg, w, n), status, room), key)
            <==> n.key == key || HasKey(Kept(w, status, room), key)
  {
    var r := InsertSorted(cfg, w, n);
    if room <= 0 {
      KeyOfInsert(cfg, w, n, key);
    } else if w == [] || Cmp(cfg, w[0], n) >= 0 {
      assert r[1..] == w;
      KeyOfCons(n, Kept(w, status, room), key);
    } else {
      var room' := if TakesPlace(w[0], status) then room - 1 else room;
      assert r[1..] == InsertSorted(cfg, w[1..], n);
      KeptInsert(cfg, w[1..], n, status, room', key);
      KeyOfCons(w[0], Kept(w[1..], status, room'), key);
      KeyOfCons(w[0], Kept(r[1..], status, room'), key);
    }
  }

  lemma {:induction false} KeptInsertAll(cfg: Settings, w: seq<Note>, s: seq<Note>, status: Status, room: int, key: nat)
    requires forall n | n in s :: !Skips(n, status) && !TakesPlace(n, status)
    ensures HasKey(Kept(InsertAll(cfg, w, s), status, room), key)
            <==> HasKey(s, key) || HasKey(Kept(w, status, room), key)
    decreases |s|
  {
    if s != [] {
      assert s == [s[0]] + s[1..];
      KeptInsert(cfg, w, s[0], status, room, key);
      KeptInsertAll(cfg, InsertSorted(cfg, w, s[0]), s[1..], status, room, key);
      KeyOfCons(s[0], s[1..], key);
    }
  }

  lemma {:induction false} ReturnedIsHeldBack(s: seq<Note>, status: Status, time: int, clock: nat -> int)
    ensures forall n | n in Look(Returning(s, status, time), status, clock) ::
              !Skips(n, status) && !TakesPlace(n, status)
  {
    if s != [] {
      ReturnedIsHeldBack(s[1..], status, time, clock);
      LookOfCons(s[0], Returning(s[1..], status, time), status, clock);
    }
  }

  lemma {:induction false} KeptIsStaying(w: seq<Note>, j: nat, status: Status, room: int)
    requires j <= |w|
    ensures Kept(w[j..], status, room - PlacesTaken(w[..j], status)) == StayingFrom(w, j, status, room)
    decreases |w| - j
  {
    if j < |w| {
      var left := room - PlacesTaken(w[..j], status);
      KeptIsStaying(w, j + 1, status, room);
      PlacesTakenSnoc(w, j, status);
      assert w[j..][1..] == w[j + 1..];
      if left <= 0 { assert w[j..] == [w[j]] + w[j + 1..]; }
    }
  }

  lemma {:induction false} PlacesTakenConcat(s: seq<Note>, t: seq<Note>, status: Status)
    ensures PlacesTaken(s + t, status) == PlacesTaken(s, status) + PlacesTaken(t, status)
  {
    if s == [] {
      assert s + t == t;
    } else {
      assert (s + t)[1..] == s[1..] + t;
      PlacesTakenConcat(s[1..], t, status);
    }
  }

  lemma PlacesTakenSnoc(w: seq<Note>, j: nat, status: Status)
    requires j < |w|
    ensures PlacesTaken(w[..j + 1], status) == PlacesTaken(w[..j], status) + (if TakesPlace(w[j], status) then 1 else 0)
  {
    assert w[..j + 1] == w[..j] + [w[j]] && [w[j]][1..] == [];
    PlacesTakenConcat(w[..j], [w[j]], status);
  }

  // ---------- the other loops ----------

  lemma ToWaitingKeys(cfg: Settings, q: Queues, i: nat, key: nat)
    requires i < |q.displayed|
    ensures LiveKey(ToWaiting(cfg, q, i), key) <==> LiveKey(q, key)
  {
    KeyOfRemove(q.displayed, i, key);
    KeyOfInsert(cfg, q.waiting, q.displayed[i], key);
  }

  lemma {:induction false} TrimKeys(cfg: Settings, limit: int, q: Queues, key: nat)
    requires 0 <= limit
    ensures LiveKey(Trim(cfg, limit, q), key) <==> LiveKey(q, key)
    decreases |q.displayed|
  {
    if |q.displayed| > limit {
      ToWaitingKeys(cfg, q, |q.displayed| - 1, key);
      TrimKeys(cfg, limit, ToWaiting(cfg, q, |q.displayed| - 1), key);
    }
  }

  lemma SwapKeys(cfg: Settings, time: int, q: Queues, key: nat)
    requires q.waiting != [] && q.displayed != []
    ensures LiveKey(Swap(cfg, time, q), key) <==> LiveKey(q, key)
  {
    var last := |q.displayed| - 1;
    assert RemoveAt(q.displayed, last) == q.displayed[..last] && RemoveAt(q.waiting, 0) == q.waiting[1..];
    KeyOfRemove(q.displayed, last, key);
    KeyOfRemove(q.waiting, 0, key);
    KeyOfInsert(cfg, q.displayed[..last], q.waiting[0].(start := time), key);
    KeyOfInsert(cfg, q.waiting[1..], q.displayed[last], key);
  }

  lemma {:induction false} SeepKeys(cfg: Settings, status: Status, time: int, q: Queues, key: nat)
    ensures LiveKey(Seep(cfg, status, time, q), key) <==> LiveKey(q, key)
    decreases UrgencyInversions(cfg, q.displayed, q.waiting), AllDescents(cfg, q.displayed, q.waiting),
              Depth(cfg, q.displayed, q.waiting)
  {
    if Seeps(cfg, status, q) {
      SwapDecreases(cfg, status, time, q);
      SwapKeys(cfg, time, q, key);
      SeepKeys(cfg, status, time, Swap(cfg, time, q), key);
    }
  }

  // ---------- the update ----------

  /** The first loop decides the limit, and how much of it is used up. */
  lemma RoomIsLeft(cfg: Settings, status: Status, time: int, clock: nat -> int, q: Queues)
    requires Once(Id, q)
    ensures var s := AfterSweep(cfg, status, time, clock, q);
            Limit(cfg, s) - |s.displayed| == Room(cfg, status, time, q)
    ensures LimitOf(cfg, status, time, clock, q) == Places(cfg, status, time, q)
  {
    SweepSplits(cfg, status, time, clock, q, 0);
    assert q.displayed[0..] == q.displayed;
    KeyOfStaying(q.displayed, status, time, 0);
  }

  lemma SweptKeys(cfg: Settings, status: Status, time: int, clock: nat -> int, q: Queues, room: int, key: nat)
    requires Once(Id, q)
    ensures var s := AfterSweep(cfg, status, time, clock, q);
            HasKey(s.displayed, key) || HasKey(Kept(s.waiting, status, room), key)
            <==> HasKey(Staying(q.displayed, status, time), key) || HasKey(Kept(q.waiting, status, room), key)
  {
    var s := AfterSweep(cfg, status, time, clock, q);
    var shown, returned := Shown(q.displayed, status, time), Returning(q.displayed, status, time);
    SweepSplits(cfg, status, time, clock, q, 0);
    assert q.displayed[0..] == q.displayed && s.displayed == Look(shown, status, clock);
    KeyOfLook(shown, status, clock, key);
    KeyOfLook(returned, status, clock, key);
    ReturnedIsHeldBack(q.displayed, status, time, clock);
    KeptInsertAll(cfg, q.waiting, Look(returned, status, clock), status, room, key);
    KeyOfStaying(q.displayed, status, time, key);
  }

  lemma UpdateKeysOfPromote(cfg: Settings, status: Status, time: int, clock: nat -> int, q: Queues, key: nat)
    ensures LiveKey(Updated(cfg, status, time, clock, q), key)
            <==> LiveKey(AfterPromote(cfg, status, time, clock, q), key)
  {
    TrimKeys(cfg, LimitOf(cfg, status, time, clock, q), AfterPromote(cfg, status, time, clock, q), key);
    SeepKeys(cfg, status, time, AfterTrim(cfg, status, time, clock, q), key);
  }

  lemma PromotedKeys(cfg: Settings, status: Status, time: int, limit: int, s: Queues, key: nat)
    requires Once(Id, s)
    ensures LiveKey(Promote(cfg, status, time, limit, s, 0), key)
            <==> HasKey(s.displayed, key) || HasKey(Kept(s.waiting, status, limit - |s.displayed|), key)
  {
    PromoteKeys(cfg, status, time, limit, s, 0, key);
    assert s.waiting[0..] == s.waiting && s.waiting[..0] == [];
  }

  lemma SurvivorKeys(cfg: Settings, status: Status, time: int, q: Queues, key: nat)
    ensures HasKey(Survivors(cfg, status, time, q), key)
            <==> HasKey(Staying(q.displayed, status, time), key)
                 || HasKey(Kept(q.waiting, status, Room(cfg, status, time, q)), key)
  {
    var room := Room(cfg, status, time, q);
    KeptIsStaying(q.waiting, 0, status, room);
    assert q.waiting[0..] == q.waiting && q.waiting[..0] == [];
    KeyOfConcat(Staying(q.displayed, status, time), StayingFrom(q.waiting, 0, status, room), key);
  }

  lemma AfterPromoteKeys(cfg: Settings, status: Status, time: int, clock: nat -> int, q: Queues, s: Queues, key: nat)
    requires Once(Id, s) && s == AfterSweep(cfg, status, time, clock, q)
    ensures LiveKey(AfterPromote(cfg, status, time, clock, q), key)
            <==> HasKey(s.displayed, key) || HasKey(Kept(s.waiting, status, Limit(cfg, s) - |s.displayed|), key)
  {
    PromotedKeys(cfg, status, time, Limit(cfg, s), s, key);
  }

  /** An update leaves exactly the survivors alive. */
  lemma UpdateLeavesSurvivors(cfg: Settings, status: Status, time: int, clock: nat -> int, q: Queues, key: nat)
    requires Once(Id, q)
    ensures LiveKey(Updated(cfg, status, time, clock, q), key) <==> HasKey(Survivors(cfg, status, time, q), key)
  {
    UpdateKeysOfPromote(cfg, status, time, clock, q, key);
    SweepThins(cfg, status, time, clock, q, 0);
    OnceShrinks(Id, q, AfterSweep(cfg, status, time, clock, q));
    AfterPromoteKeys(cfg, status, time, clock, q, AfterSweep(cfg, status, time, clock, q), key);
    RoomIsLeft(cfg, status, time, clock, q);
    SweptKeys(cfg, status, time, clock, q, Room(cfg, status, time, q), key);
    SurvivorKeys(cfg, status, time, q, key);
  }

  // ---------- one notification ----------

  lemma {:induction false} StayingMembers(s: seq<Note>, status: Status, time: int)
    ensures forall n :: n in Staying(s, status, time) <==> n in s && !Closes(n, status, time)
  {
    if s != [] {
      StayingMembers(s[1..], status, time);
      assert forall n :: n in s <==> n == s[0] || n in s[1..];
    }
  }

  lemma {:induction false} StayingFromMembers(w: seq<Note>, j: nat, status: Status, room: int)
    requires j <= |w|
    ensures forall i | j <= i < |w| && !ClosesWaiting(w, i, status, room) :: w[i] in StayingFrom(w, j, status, room)
    ensures forall n | n in StayingFrom(w, j, status, room) ::
              exists i :: j <= i < |w| && w[i] == n && !ClosesWaiting(w, i, status, room)
    decreases |w| - j
  {
    if j < |w| {
      StayingFromMembers(w, j + 1, status, room);
    }
  }

  ghost predicate DistinctKeys(s: seq<Note>) {
    forall i, j | 0 <= i < j < |s| :: s[i].key != s[j].key
  }

  lemma LiveKeysDistinct(q: Queues)
    requires Once(Key, q)
    ensures DistinctKeys(q.displayed + q.waiting)
  {
    var s := q.displayed + q.waiting;
    forall i, j | 0 <= i < j < |s| ensures s[i].key != s[j].key {
      CountConcat(Key, s[i].key, q.displayed, q.waiting);
      assert Current(Key, s[i].key, q) <= 1;
      if s[i].key == s[j].key { CountTwice(Key, s, i, j); }
    }
  }

  lemma LiveKeysApart(q: Queues)
    requires Once(Key, q)
    ensures DistinctKeys(q.displayed) && DistinctKeys(q.waiting)
    ensures forall a, b | a in q.displayed && b in q.waiting :: a.key != b.key
    ensures forall a, b | a in q.displayed && b in q.displayed && a.key == b.key :: a == b
    ensures forall i, j | 0 <= i < |q.waiting| && 0 <= j < |q.waiting| && q.waiting[i].key == q.waiting[j].key :: i == j
  {
    var s, d := q.displayed + q.waiting, |q.displayed|;
    LiveKeysDistinct(q);
    forall i, j | 0 <= i < d && 0 <= j < |q.waiting| ensures q.displayed[i].key != q.waiting[j].key {
      assert s[i].key != s[d + j].key;
    }
    forall i, j | 0 <= i < j < d ensures q.displayed[i].key != q.displayed[j].key {
      assert s[i].key != s[j].key;
    }
    forall i, j | 0 <= i < j < |q.waiting| ensures q.waiting[i].key != q.waiting[j].key {
      assert s[d + i].key != s[d + j].key;
    }
  }

  /** A displayed notification leaves the live queues exactly when it closes: whatever its
      place, and whatever else happens in the update. */
  lemma DisplayedLeavesIff(cfg: Settings, status: Status, time: int, clock: nat -> int, q: Queues, i: nat)
    requires Once(Id, q) && Once(Key, q) && i < |q.displayed|
    ensures LiveKey(Updated(cfg, status, time, clock, q), q.displayed[i].key) <==> !Closes(q.displayed[i], status, time)
  {
    var n := q.displayed[i];
    UpdateLeavesSurvivors(cfg, status, time, clock, q, n.key);
    LiveKeysApart(q);
    StayingMembers(q.displayed, status, time);
    StayingFromMembers(q.waiting, 0, status, Room(cfg, status, time, q));
    assert n in q.displayed;
    if !Closes(n, status, time) { assert n in Survivors(cfg, status, time, q); }
  }

  /** A waiting one leaves them exactly when it is suppressed, or would be shown but is to be
      skipped, and those that are shown before it leave a place free. */
  lemma WaitingLeavesIff(cfg: Settings, status: Status, time: int, clock: nat -> int, q: Queues, j: nat)
    requires Once(Id, q) && Once(Key, q) && j < |q.waiting|
    ensures LiveKey(Updated(cfg, status, time, clock, q), q.waiting[j].key)
            <==> !ClosesWaiting(q.waiting, j, status, Room(cfg, status, time, q))
  {
    var n, room := q.waiting[j], Room(cfg, status, time, q);
    UpdateLeavesSurvivors(cfg, status, time, clock, q, n.key);
    LiveKeysApart(q);
    StayingMembers(q.displayed, status, time);
    StayingFromMembers(q.waiting, 0, status, room);
    assert n in q.waiting;
    if !ClosesWaiting(q.waiting, j, status, room) { assert n in Survivors(cfg, status, time, q); }
  }

  /** A displayed notification that is pushed back is not on screen when the update ends. */
  lemma PushedBackStaysBack(cfg: Settings, status: Status, time: int, clock: nat -> int, q: Queues, i: nat)
    requires Once(Id, q) && Once(Key, q) && forall k :: time <= clock(k)
    requires i < |q.displayed| && Returns(q.displayed[i], status)
    ensures !HasKey(Updated(cfg, status, time, clock, q).displayed, q.displayed[i].key)
  {
    var n, r := q.displayed[i], Updated(cfg, status, time, clock, q);
    OnceIsOnScreen(q);
    UpdateLeavesFit(cfg, status, time, clock, q);
    UpdateOnlyRestarts(cfg, status, time, clock, q);
    LiveKeysApart(q);
    assert n in q.displayed;
    forall m | m in r.displayed ensures m.key != n.key {
      assert CameFrom(q, m) && Fit(m, status, time);
      var l :| (l in q.displayed || l in q.waiting) && m == l.(start := m.start);
      assert !Fit(n.(start := m.start), status, time);
    }
  }
}
