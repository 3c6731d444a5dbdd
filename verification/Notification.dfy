/** The notification record, the settings the scheduler reads, and the comparator
    that orders the queues (src/notification.h, src/notification.c). */
module Notifications {

  datatype Option<+T> = None | Some(value: T)

  datatype Fullscreen = FsNull | FsDelay | FsPushback | FsShow | FsSuppress

  datatype IconPosition = IconLeft | IconRight | IconTop | IconOff

  /** LOW, NORMAL and CRITICAL; other values are replaced on arrival. */
  type Urgency = u: int | 0 <= u <= 2

  datatype SortType = ById | UrgencyAscending | UrgencyDescending | ByUpdate

  /** `originBottom` is the anchor bit of the window origin that the comparator tests. */
  datatype Settings = Settings(
    sort: SortType,
    originBottom: bool,
    stackDuplicates: bool,
    notificationLimit: nat,
    indicateHidden: bool,
    stickyHistory: bool,
    historyLength: int,
    ignoreDbusClose: bool,
    showAgeThreshold: int
  )

  datatype Status = Status(fullscreen: bool, pauseLevel: int, idle: bool, mouseOver: bool)

  /** What the user reads; stacking compares it, the queues never change it. */
  datatype Content = Content(
    msg: string,
    appname: string,
    summary: string,
    body: string,
    stackTag: string,
    progress: int,
    iconPosition: IconPosition,
    iconId: Option<string>,
    iconName: Option<string>
  )

  /** `key` is the identity of the object behind the pointer: two notifications never
      share one, while ids can be chosen by clients. `fromBus` records whether the
      notification arrived over D-Bus; `dbusValid` is the flag the program clears. */
  datatype Note = Note(
    key: nat,
    id: int,
    urgency: Urgency,
    timestamp: int,
    start: int,
    timeout: int,
    locked: bool,
    overridePauseLevel: int,
    fullscreen: Fullscreen,
    skipDisplay: bool,
    historyIgnore: bool,
    transient: bool,
    redisplayed: bool,
    closeMark: nat,
    removeMark: nat,
    fromBus: bool,
    dbusValid: bool,
    actions: set<string>,
    defaultAction: string,
    dupCount: int,
    content: Content
  )

  const TWO_31 := 0x8000_0000
  const TWO_32 := 0x1_0000_0000

  function Min(a: int, b: int): int { if a < b then a else b }

  /** Conversion of a wide integer to a C `int`. */
  function ToInt32(x: int): int {
    var m := x % TWO_32;
    if m < TWO_31 then m else m - TWO_32
  }

  /** What the comparator looks at. */
  predicate SameSortKey(n: Note, m: Note) {
    n.id == m.id && n.urgency == m.urgency && n.timestamp == m.timestamp
  }

  /** `notification_cmp`: negative when `a` goes above `b`. Every returned difference is
      narrowed to `int`, which matters for the 64-bit timestamps. */
  function Cmp(cfg: Settings, a: Note, b: Note): int {
    var swap := cfg.sort == ByUpdate && cfg.originBottom;
    var x := if swap then b else a;
    var y := if swap then a else b;
    if cfg.sort == UrgencyAscending && x.urgency != y.urgency then
      ToInt32(x.urgency - y.urgency)
    else if cfg.sort == UrgencyDescending && x.urgency != y.urgency then
      ToInt32(y.urgency - x.urgency)
    else if cfg.sort == ByUpdate then
      ToInt32(y.timestamp - x.timestamp)
    else
      ToInt32(x.id - y.id)
  }

  /** Everything the comparator may look at stays inside one `int` of distance. `base` is
      the start of the time window, which matters in update order only. */
  predicate InWindow(cfg: Settings, base: int, n: Note) {
    && 0 <= n.id < TWO_31
    && (cfg.sort == ByUpdate ==> base <= n.timestamp < base + TWO_31)
  }

  predicate AllInWindow(cfg: Settings, base: int, s: seq<Note>) {
    forall n | n in s :: InWindow(cfg, base, n)
  }

  /** The order the settings ask for, as one unbounded number. */
  function Rank(cfg: Settings, n: Note): int {
    match cfg.sort
    case ById => n.id
    case UrgencyAscending => n.urgency * TWO_31 + n.id
    case UrgencyDescending => -(n.urgency as int) * TWO_31 + n.id
    case ByUpdate => if cfg.originBottom then n.timestamp else -n.timestamp
  }

  lemma ToInt32IsExact(x: int)
    ensures -TWO_31 <= x < TWO_31 ==> ToInt32(x) == x
    ensures ToInt32(0) == 0
  {
  }

  /** Within one window the narrowed comparator is exactly the intended order, and hence
      a total preorder in every sort mode and for either origin. */
  lemma CmpIsRankOrder(cfg: Settings, base: int, a: Note, b: Note)
    requires InWindow(cfg, base, a) && InWindow(cfg, base, b)
    ensures Cmp(cfg, a, b) < 0 <==> Rank(cfg, a) < Rank(cfg, b)
    ensures Cmp(cfg, a, b) == 0 <==> Rank(cfg, a) == Rank(cfg, b)
    ensures Cmp(cfg, a, b) > 0 <==> Rank(cfg, a) > Rank(cfg, b)
  {
    ToInt32IsExact(a.id - b.id);
    ToInt32IsExact(b.id - a.id);
    ToInt32IsExact(a.urgency - b.urgency);
    ToInt32IsExact(b.urgency - a.urgency);
    ToInt32IsExact(a.timestamp - b.timestamp);
    ToInt32IsExact(b.timestamp - a.timestamp);
  }

  lemma CmpIsTotalPreorder(cfg: Settings, base: int, a: Note, b: Note, c: Note)
    requires InWindow(cfg, base, a) && InWindow(cfg, base, b) && InWindow(cfg, base, c)
    ensures Cmp(cfg, a, a) == 0
    ensures Cmp(cfg, a, b) <= 0 || Cmp(cfg, b, a) <= 0
    ensures Cmp(cfg, a, b) > 0 <==> Cmp(cfg, b, a) < 0
    ensures Cmp(cfg, a, b) <= 0 && Cmp(cfg, b, c) <= 0 ==> Cmp(cfg, a, c) <= 0
  {
    CmpIsRankOrder(cfg, base, a, a);
    CmpIsRankOrder(cfg, base, a, b);
    CmpIsRankOrder(cfg, base, b, a);
    CmpIsRankOrder(cfg, base, b, c);
    CmpIsRankOrder(cfg, base, a, c);
  }

  /** The newest notification is on top of an older one, as update order promises. */
  predicate NewestFirst(cfg: Settings, n: Note, t: int, u: int)
    requires cfg.sort == ByUpdate && !cfg.originBottom
  {
    (Cmp(cfg, n.(timestamp := t), n.(timestamp := u)) < 0) <==> t > u
  }

  /** The bound is exact: update order holds for all arrivals at most `span` microseconds
      apart if and only if `span` is below 2^31, a little under 36 minutes. */
  lemma UpdateOrderHoldsIffSpanBelow(cfg: Settings, n: Note, span: nat)
    requires cfg.sort == ByUpdate && !cfg.originBottom
    ensures (forall t, u | t - u <= span && u - t <= span :: NewestFirst(cfg, n, t, u)) <==> span < TWO_31
  {
    if span >= TWO_31 {
      assert !NewestFirst(cfg, n, 0, TWO_31);
    }
  }

  /** `notification_is_duplicate`. */
  predicate IsDuplicate(a: Note, b: Note) {
    && a.content.appname == b.content.appname
    && a.content.summary == b.content.summary
    && a.content.body == b.content.body
    && a.urgency == b.urgency
    && (|| a.content.iconPosition == IconOff
        || b.content.iconPosition == IconOff
        || (if a.content.iconId.Some? && b.content.iconId.Some? then a.content.iconId == b.content.iconId
            else a.content.iconName.Some? && b.content.iconName.Some? ==> a.content.iconName == b.content.iconName))
  }
}
