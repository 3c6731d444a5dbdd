/** Building the rows, sizing them, painting them and hit-testing them (src/draw.c,
    src/input.c), with the displayed_height field that painting leaves for clicking. */
module Screen {
  import opened Notifications
  import opened SortedQueue
  import opened Window
  import Spec = QueueSpec
  import Conservation
  import Scheduling

  /** A row of the window: a notification, with "(count more)" behind its text when `count`
      is positive, or the "(count more)" row, drawn in the look of the head of waiting. */
  datatype Row = Shown(n: Note, count: nat) | More(n: Note, count: nat)

  /** What the layout engine reports about each notification. */
  type Measure = Note -> Item

  function ItemOf(measure: Measure, row: Row): Item {
    measure(row.n).(isMore := row.More?)
  }

  function Rows(cfg: Settings, displayed: seq<Note>, waiting: seq<Note>): (rows: seq<Row>)
    ensures |displayed| <= |rows|
    ensures forall i | 0 <= i < |displayed| :: rows[i].Shown? && rows[i].n == displayed[i]
  {
    var needed := waiting != [] && cfg.indicateHidden;
    seq(|displayed|, i requires 0 <= i < |displayed| =>
      Shown(displayed[i], if i == |displayed| - 1 && needed && cfg.notificationLimit == 1 then |waiting| else 0))
    + (if needed && cfg.notificationLimit != 1 then [More(waiting[0], |waiting|)] else [])
  }

  /** The hidden counts that the user reads, top to bottom. */
  function Announced(rows: seq<Row>): seq<nat> {
    if rows == [] then []
    else (if rows[0].count > 0 then [rows[0].count] else []) + Announced(rows[1..])
  }

  lemma {:induction false} AnnouncedSplits(a: seq<Row>, b: seq<Row>)
    ensures Announced(a + b) == Announced(a) + Announced(b)
  {
    if a == [] {
      assert a + b == b;
    } else {
      assert (a + b)[1..] == a[1..] + b;
      AnnouncedSplits(a[1..], b);
    }
  }

  lemma {:induction false} NoneAnnounced(rows: seq<Row>)
    requires forall r | r in rows :: r.count == 0
    ensures Announced(rows) == []
  {
    if rows != [] { NoneAnnounced(rows[1..]); }
  }

  /** With something on screen, the number of hidden notifications is announced exactly once
      when there are any and the user asked for it, and never otherwise. */
  lemma HiddenAreAnnouncedOnce(cfg: Settings, displayed: seq<Note>, waiting: seq<Note>)
    requires displayed != []
    ensures Announced(Rows(cfg, displayed, waiting))
            == if waiting != [] && cfg.indicateHidden then [|waiting|] else []
  {
    var rows := Rows(cfg, displayed, waiting);
    var k := |rows| - 1;
    NoneAnnounced(rows[..k]);
    AnnouncedSplits(rows[..k], rows[k..]);
    assert rows == rows[..k] + rows[k..];
    assert rows[k..][1..] == [];
  }

  /** The rows from top to bottom: what is displayed, in order, and below it the number of hidden
      ones in the look of the first of them. Where only one row is allowed the number stands behind
      the text of the last row instead. */
  lemma RowsInOrder(cfg: Settings, displayed: seq<Note>, waiting: seq<Note>)
    ensures var rows, hidden := Rows(cfg, displayed, waiting), waiting != [] && cfg.indicateHidden;
            && (forall i | 0 <= i < |displayed| - 1 :: rows[i] == Row.Shown(displayed[i], 0))
            && (hidden && cfg.notificationLimit != 1 ==>
                  |rows| == |displayed| + 1 && rows[|displayed|] == More(waiting[0], |waiting|))
            && (!hidden || cfg.notificationLimit == 1 ==> |rows| == |displayed|)
            && (displayed != [] ==>
                  rows[|displayed| - 1] == Row.Shown(displayed[|displayed| - 1],
                                                     if hidden && cfg.notificationLimit == 1 then |waiting| else 0))
  {
  }

  /** The heights the rows are given. */
  function RowHeights(g: Geometry, rows: seq<Row>, measure: Measure): (hs: seq<int>)
    ensures |hs| == |rows| && NonNegative(hs)
  {
    seq(|rows|, i requires 0 <= i < |rows| => DisplayedHeight(g, ItemOf(measure, rows[i])))
  }

  /** displayed_height by object, after sizing `rows` in turn. */
  function Stored(g: Geometry, rows: seq<Row>, measure: Measure, heights: map<nat, int>): map<nat, int> {
    if rows == [] then heights
    else
      var k := |rows| - 1;
      Stored(g, rows[..k], measure, heights)[rows[k].n.key := DisplayedHeight(g, ItemOf(measure, rows[k]))]
  }

  /** The field as C reads it: objects start out zeroed. */
  function HeightIn(heights: map<nat, int>, n: Note): int {
    if n.key in heights then heights[n.key] else 0
  }

  function HeightsIn(heights: map<nat, int>, s: seq<Note>): (hs: seq<int>)
    ensures |hs| == |s|
  {
    seq(|s|, i requires 0 <= i < |s| => HeightIn(heights, s[i]))
  }

  predicate DistinctRows(rows: seq<Row>) {
    forall i, j | 0 <= i < j < |rows| :: rows[i].n.key != rows[j].n.key
  }

  /** The rows of the queues show different objects, and are as many as the limit on rows
      counts. */
  lemma RowsOfQueues(cfg: Settings, q: Spec.Queues)
    requires Conservation.EachObjectOnce(q)
    ensures DistinctRows(Rows(cfg, q.displayed, q.waiting))
    ensures |Rows(cfg, q.displayed, q.waiting)| == Scheduling.RowCount(cfg, q)
  {
    var rows := Rows(cfg, q.displayed, q.waiting);
    var both := q.displayed + q.waiting;
    forall i, j | 0 <= i < j < |rows| ensures rows[i].n.key != rows[j].n.key {
      assert rows[i].n == both[i] && rows[j].n == both[j];
      var k := both[i].key;
      assert Conservation.All(Key, k, q) <= 1;
      if rows[i].n.key == rows[j].n.key {
        CountTwice(Key, both, i, j);
        CountConcat(Key, both[i].key, q.displayed, q.waiting);
      }
    }
  }

  lemma {:induction false} StoredIsKept(g: Geometry, rows: seq<Row>, measure: Measure, heights: map<nat, int>, i: nat)
    requires i < |rows| && DistinctRows(rows)
    ensures HeightIn(Stored(g, rows, measure, heights), rows[i].n) == DisplayedHeight(g, ItemOf(measure, rows[i]))
  {
    var k := |rows| - 1;
    if i < k { StoredIsKept(g, rows[..k], measure, heights, i); }
  }

  /** Clicking and painting agree on this geometry, whatever is displayed. */
  predicate Aligned(g: Geometry) {
    if g.gapSize == 0 then g.frameWidth >= 1 || g.separatorHeight % 2 == 0
    else g.frameWidth == 0 || (TopSet(g) && BottomSet(g))
  }

  ghost predicate Within(b: Span, y: int) { b.top <= y < b.bottom }

  /** From drawing to clicking: after a draw, every pixel row of the body painted for a
      displayed notification is mapped to that notification, with or without a "(N more)"
      row. */
  lemma DrawnIsClickable(g: Geometry, cfg: Settings, q: Spec.Queues, measure: Measure,
                         heights: map<nat, int>, i: nat, y: int)
    requires ValidCorners(g) && Aligned(g) && i < |q.displayed|
    requires Conservation.EachObjectOnce(q)
    requires var rows := Rows(cfg, q.displayed, q.waiting);
             Within(Painted(g, RowHeights(g, rows, measure))[i], y)
    ensures var rows := Rows(cfg, q.displayed, q.waiting);
            NotificationAt(g, HeightsIn(Stored(g, rows, measure, heights), q.displayed), y) == Some(i)
  {
    RowsOfQueues(cfg, q);
    var rows := Rows(cfg, q.displayed, q.waiting);
    var all := RowHeights(g, rows, measure);
    var hs := HeightsIn(Stored(g, rows, measure, heights), q.displayed);
    forall j | 0 <= j < |q.displayed| ensures hs[j] == all[j] { StoredIsKept(g, rows, measure, heights, j); }
    if |rows| > |q.displayed| {
      assert all == hs + [all[|q.displayed|]];
      ExtraRowMovesNothing(g, hs, all[|q.displayed|], (g.corners & C_TOP) | C_FIRST, 0);
      assert Painted(g, all)[..|q.displayed|] == Painted(g, hs);
      assert Painted(g, all)[..|q.displayed|][i] == Painted(g, hs)[i];
    } else {
      assert all == hs;
    }
    assert NonNegative(hs);
    if g.gapSize == 0 { NoGapAgrees(g, hs); } else { GapAgreesIff(g); }
    assert Hits(g, hs, i, y);
  }

  /** One turn of the painting loop. */
  lemma BodyTurn(g: Geometry, hs: seq<int>, i: nat, corners: bv8, y: int, done: seq<Span>, c: bv8, next: int,
                 body: Span)
    requires i < |hs| && c == CornersNow(g, corners, i + 1 == |hs|) && next == NextTop(g, c, hs[i], y)
    requires body.top == y + FrameAbove(g, c) && body.bottom == body.top + hs[i]
    ensures (done + [body]) + Bodies(g, hs[i + 1..], CornersNext(c), next) == done + Bodies(g, hs[i..], corners, y)
  {
    FirstBody(g, hs[i..], corners, y);
    assert hs[i..][1..] == hs[i + 1..];
    var rest := Bodies(g, hs[i + 1..], CornersNext(c), next);
    assert done + ([body] + rest) == (done + [body]) + rest;
  }

  class Screen {
    /** The displayed_height field of every notification object. */
    var displayedHeight: map<nat, int>

    constructor ()
      ensures displayedHeight == map[]
    {
      displayedHeight := map[];
    }

    /** `create_layouts` */
    static method CreateLayouts(cfg: Settings, displayed: seq<Note>, waiting: seq<Note>) returns (layouts: seq<Row>)
      ensures layouts == Rows(cfg, displayed, waiting)
      ensures |layouts| == |displayed| + if |waiting| > 0 && cfg.indicateHidden && cfg.notificationLimit != 1
                                         then 1 else 0
    {
      layouts := [];
      var qlen := |waiting|;
      var needed := qlen > 0 && cfg.indicateHidden;
      for i := 0 to |displayed|
        invariant layouts == Rows(cfg, displayed, waiting)[..i]
      {
        var row := Shown(displayed[i], 0);
        if i + 1 == |displayed| && needed && cfg.notificationLimit == 1 {
          row := row.(count := qlen);
        }
        layouts := layouts + [row];
      }
      if needed && cfg.notificationLimit != 1 {
        layouts := layouts + [More(waiting[0], qlen)];
      }
    }

    /** `calculate_notification_dimensions`, the height */
    method CalculateNotificationDimensions(g: Geometry, row: Row, measure: Measure) returns (h: int)
      modifies this
      ensures h == DisplayedHeight(g, ItemOf(measure, row))
      ensures displayedHeight == old(displayedHeight)[row.n.key := h]
    {
      var it := ItemOf(measure, row);
      var progressBarHeight := ProgressHeight(g, it);
      var textHeight, verticalPadding := 0, 0;
      if !it.hideText {
        textHeight := it.textHeight;
        verticalPadding := VerticalPadding(g, it);
      }
      if IconOnTop(it) {
        h := IconHeight(it) + textHeight + verticalPadding;
      } else {
        h := Max(IconHeight(it), textHeight);
      }
      h := h + (progressBarHeight + g.padding * 2);
      h := Max(g.heightMin, h);
      h := Min(g.heightMax, h);
      displayedHeight := displayedHeight[row.n.key := h];
    }

    /** `calculate_dimensions`, the height */
    method CalculateDimensions(g: Geometry, layouts: seq<Row>, measure: Measure) returns (h: int)
      modifies this
      ensures h == WindowHeight(g, RowHeights(g, layouts, measure))
      ensures displayedHeight == Stored(g, layouts, measure, old(displayedHeight))
    {
      ghost var hs := RowHeights(g, layouts, measure);
      h := 0;
      for i := 0 to |layouts|
        invariant h == Sum(hs[..i])
        invariant displayedHeight == Stored(g, layouts[..i], measure, old(displayedHeight))
      {
        assert layouts[..i + 1][..i] == layouts[..i];
        SumGrows(hs, i);
        var d := CalculateNotificationDimensions(g, layouts[i], measure);
        h := h + d;
      }
      assert layouts[..|layouts|] == layouts && hs[..|layouts|] == hs;
      if g.gapSize != 0 {
        var extraFrameHeight := |layouts| * (2 * g.frameWidth);
        var extraGapHeight := |layouts| * g.gapSize - g.gapSize;
        h := h + (extraFrameHeight + extraGapHeight);
      } else {
        h := h + 2 * g.frameWidth;
        h := h + (|layouts| - 1) * g.separatorHeight;
      }
    }

    /** The corner flags at the head of the loop in `draw`. */
    static method CornersOf(g: Geometry, corners: bv8, last: bool) returns (c: bv8)
      ensures c == CornersNow(g, corners, last)
    {
      c := corners;
      if g.gapSize != 0 {
        c := g.corners;
      } else if last {
        c := c | ((g.corners & C_BOT) | C_LAST);
      }
    }

    /** `layout_render`, the vertical part: the body painted and the new dim.y */
    static method RenderLayout(g: Geometry, it: Item, y: int, corners: bv8) returns (next: int, body: Span)
      ensures next == NextTop(g, corners, DisplayedHeight(g, it), y)
      ensures body.top == y + FrameAbove(g, corners) && body.bottom == body.top + DisplayedHeight(g, it)
    {
      StoredHeightIsPainted(g, it);
      var bgHeight := Max(g.heightMin, 2 * g.padding + LayoutHeight(g, it));
      bgHeight := Min(g.heightMax, bgHeight);
      next := y;
      if HasTop(corners) {
        next := next + g.frameWidth;
      }
      body := Span(next, next + bgHeight);
      if HasBottom(corners) {
        next := next + g.frameWidth;
      }
      next := next + bgHeight;
      if g.gapSize != 0 {
        next := next + g.gapSize;
      } else {
        next := next + g.separatorHeight;
      }
    }

    /** The loop in `draw`. */
    static method RenderLayouts(g: Geometry, layouts: seq<Row>, measure: Measure) returns (bodies: seq<Span>)
      ensures bodies == Painted(g, RowHeights(g, layouts, measure))
    {
      ghost var hs := RowHeights(g, layouts, measure);
      var corners: bv8 := (g.corners & C_TOP) | C_FIRST;
      var y := 0;
      bodies := [];
      assert hs[0..] == hs;
      for i := 0 to |layouts|
        invariant bodies + Bodies(g, hs[i..], corners, y) == Painted(g, hs)
      {
        var c := CornersOf(g, corners, i + 1 == |layouts|);
        var next, body := RenderLayout(g, ItemOf(measure, layouts[i]), y, c);
        BodyTurn(g, hs, i, corners, y, bodies, c, next, body);
        bodies, y, corners := bodies + [body], next, CornersNext(c);
      }
      assert hs[|layouts|..] == [];
    }

    /** `draw`: the window height and the bodies painted */
    method Draw(g: Geometry, cfg: Settings, displayed: seq<Note>, waiting: seq<Note>, measure: Measure)
      returns (h: int, bodies: seq<Span>)
      modifies this
      ensures var rows := Rows(cfg, displayed, waiting);
              && h == WindowHeight(g, RowHeights(g, rows, measure))
              && displayedHeight == Stored(g, rows, measure, old(displayedHeight))
              && bodies == Painted(g, RowHeights(g, rows, measure))
    {
      var layouts := CreateLayouts(cfg, displayed, waiting);
      h := CalculateDimensions(g, layouts, measure);
      bodies := RenderLayouts(g, layouts, measure);
    }

    /** `get_notification_at` */
    method GetNotificationAt(g: Geometry, displayed: seq<Note>, y: int) returns (r: Option<Note>)
      ensures var at := NotificationAt(g, HeightsIn(displayedHeight, displayed), y);
              match at
              case None => r == None
              case Some(i) => i < |displayed| && r == Some(displayed[i])
    {
      ghost var hs := HeightsIn(displayedHeight, displayed);
      var currY, first := 0, true;
      for i := 0 to |displayed|
        invariant NotificationAt(g, hs, y) == FindAt(g, hs[i..], currY, first, i, y)
      {
        assert hs[i..][1..] == hs[i + 1..];
        var last := i + 1 == |displayed|;
        var size := ClickableHeight(g, HeightIn(displayedHeight, displayed[i]), first, last);
        if currY <= y < currY + size {
          return Some(displayed[i]);
        }
        currY := currY + size;
        if g.gapSize != 0 {
          currY := currY + g.gapSize;
        }
        first := false;
      }
      r := None;
    }
  }

  lemma {:induction false} SumGrows(hs: seq<int>, i: nat)
    requires i < |hs|
    ensures Sum(hs[..i + 1]) == Sum(hs[..i]) + hs[i]
  {
    if i == 0 {
      assert hs[..1][1..] == [];
    } else {
      assert hs[..i + 1][1..] == hs[1..][..i] && hs[..i][1..] == hs[1..][..i - 1];
      SumGrows(hs[1..], i - 1);
    }
  }
}
