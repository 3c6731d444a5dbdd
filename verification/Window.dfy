/** Drawing rows (src/draw.c) and finding the notification under a click (src/input.c), at
    scale 1: the two keep separate accounts of the same pixels. */
module Window {
  import opened Notifications

  /** The settings that decide heights. `corners` holds the corner_pos bits. */
  datatype Geometry = Geometry(
    frameWidth: nat,
    separatorHeight: nat,
    gapSize: nat,
    padding: nat,
    textIconPadding: nat,
    heightMin: nat,
    heightMax: nat,
    progressBar: bool,
    progressBarHeight: nat,
    corners: bv8
  )

  const C_TOP: bv8 := 3
  const C_BOT: bv8 := 12
  const C_FIRST: bv8 := 16
  const C_LAST: bv8 := 32

  /** What Pango and the icon loader report about one row. `isMore` marks the "(N more)" row,
      drawn for the head of waiting without its icon and its progress bar. */
  datatype Item = Item(
    textHeight: nat,
    icon: Option<nat>,
    iconPosition: IconPosition,
    hideText: bool,
    progress: int,
    isMore: bool
  )

  function Max(a: int, b: int): int { if a > b then a else b }

  // ---------- heights ----------

  /** The icon that is laid out. */
  function IconHeight(it: Item): nat {
    if it.icon.Some? && it.iconPosition != IconOff && !it.isMore then it.icon.value else 0
  }

  predicate IconOnTop(it: Item) { it.iconPosition == IconTop && it.icon.Some? }

  function VerticalPadding(g: Geometry, it: Item): nat {
    if g.textIconPadding != 0 && IconOnTop(it) then g.textIconPadding else g.padding
  }

  function ProgressHeight(g: Geometry, it: Item): nat {
    if it.progress >= 0 && g.progressBar && !it.isMore then g.progressBarHeight + g.padding else 0
  }

  /** `calculate_notification_dimensions`, the value stored as displayed_height. */
  function DisplayedHeight(g: Geometry, it: Item): (h: int)
    ensures 0 <= h
  {
    var text := if it.hideText then 0 else it.textHeight;
    var pad := if it.hideText then 0 else VerticalPadding(g, it);
    var h := if IconOnTop(it) then IconHeight(it) + text + pad else Max(IconHeight(it), text);
    Min(g.heightMax, Max(g.heightMin, h + (ProgressHeight(g, it) + g.padding * 2)))
  }

  /** `layout_get_height` */
  function LayoutHeight(g: Geometry, it: Item): int {
    var text := if it.hideText then 0 else it.textHeight;
    var pad := if it.hideText then 0 else VerticalPadding(g, it);
    if IconOnTop(it) then IconHeight(it) + text + ProgressHeight(g, it) + pad
    else Max(text, IconHeight(it)) + ProgressHeight(g, it)
  }

  /** The height `layout_render` paints. */
  function PaintedHeight(g: Geometry, it: Item): int {
    Min(g.heightMax, Max(g.heightMin, 2 * g.padding + LayoutHeight(g, it)))
  }

  /** The height that is stored is the height that is painted. */
  lemma StoredHeightIsPainted(g: Geometry, it: Item)
    ensures DisplayedHeight(g, it) == PaintedHeight(g, it)
  {
  }

  function Sum(hs: seq<int>): int {
    if hs == [] then 0 else hs[0] + Sum(hs[1..])
  }

  /** The window height of `calculate_dimensions`. */
  function WindowHeight(g: Geometry, hs: seq<int>): int {
    var n := |hs|;
    if g.gapSize != 0 then Sum(hs) + n * (2 * g.frameWidth) + (n * g.gapSize - g.gapSize)
    else Sum(hs) + 2 * g.frameWidth + (n - 1) * g.separatorHeight
  }

  // ---------- painting ----------

  predicate HasTop(corners: bv8) { corners & (C_TOP | C_FIRST) != 0 }

  predicate HasBottom(corners: bv8) { corners & (C_BOT | C_LAST) != 0 }

  /** The corner flags of one turn of the loop in `draw`. */
  function CornersNow(g: Geometry, corners: bv8, last: bool): bv8 {
    if g.gapSize != 0 then g.corners
    else if last then corners | ((g.corners & C_BOT) | C_LAST)
    else corners
  }

  function CornersNext(corners: bv8): bv8 {
    corners & !(C_TOP | C_FIRST)
  }

  /** The pixel rows from `top` up to, not including, `bottom`. */
  datatype Span = Span(top: int, bottom: int)

  function FrameAbove(g: Geometry, corners: bv8): nat { if HasTop(corners) then g.frameWidth else 0 }

  function FrameBelow(g: Geometry, corners: bv8): nat { if HasBottom(corners) then g.frameWidth else 0 }

  /** The bodies painted from the vertical position `y` on: the loop in `draw` with the
      y-advance of `layout_render`. */
  function Bodies(g: Geometry, hs: seq<int>, corners: bv8, y: int): (b: seq<Span>)
    ensures |b| == |hs|
  {
    if hs == [] then []
    else
      var c := CornersNow(g, corners, |hs| == 1);
      var top := y + FrameAbove(g, c);
      var next := NextTop(g, c, hs[0], y);
      [Span(top, top + hs[0])] + Bodies(g, hs[1..], CornersNext(c), next)
  }

  /** Where the row below starts. */
  function NextTop(g: Geometry, c: bv8, h: int, y: int): int {
    y + FrameAbove(g, c) + FrameBelow(g, c) + h + (if g.gapSize != 0 then g.gapSize else g.separatorHeight)
  }

  function Painted(g: Geometry, hs: seq<int>): (b: seq<Span>)
    ensures |b| == |hs|
  {
    Bodies(g, hs, (g.corners & C_TOP) | C_FIRST, 0)
  }

  // ---------- clicking ----------

  /** Conversion of a double to int. */
  function Trunc(x: real): int {
    if x >= 0.0 then x.Floor else -((-x).Floor)
  }

  /** `get_notification_clickable_height`; the separator is halved in floating point. */
  function ClickableHeight(g: Geometry, height: int, first: bool, last: bool): int {
    if g.gapSize != 0 then height + g.frameWidth * 2
    else
      var half := g.separatorHeight as real / 2.0;
      var s0 := height + g.separatorHeight;
      var s1 := if first then Trunc(s0 as real + (g.frameWidth as real - half)) else s0;
      if last then Trunc(s1 as real + (g.frameWidth as real - half)) else s1
  }

  /** `get_notification_at` from some element on, with `at` counting the elements passed. */
  function FindAt(g: Geometry, hs: seq<int>, curr: int, first: bool, at: nat, y: int): Option<nat> {
    if hs == [] then None
    else
      var size := ClickableHeight(g, hs[0], first, |hs| == 1);
      if curr <= y < curr + size then Some(at)
      else FindAt(g, hs[1..], curr + size + g.gapSize, false, at + 1, y)
  }

  function NotificationAt(g: Geometry, hs: seq<int>, y: int): Option<nat> {
    FindAt(g, hs, 0, true, 0, y)
  }

  // ---------- the two accounts agree ----------

  ghost predicate Hits(g: Geometry, hs: seq<int>, i: nat, y: int)
    requires i < |hs|
  {
    Painted(g, hs)[i].top <= y < Painted(g, hs)[i].bottom
  }

  /** Every pixel row of a painted body is mapped back to its notification. */
  ghost predicate ClicksAgree(g: Geometry, hs: seq<int>) {
    forall i, y | 0 <= i < |hs| && Hits(g, hs, i, y) :: NotificationAt(g, hs, y) == Some(i)
  }

  predicate NonNegative(hs: seq<int>) { forall i | 0 <= i < |hs| :: hs[i] >= 0 }

  /** The clickable heights without floating point, when there is no gap. */
  lemma ClickableExactly(g: Geometry, height: int, first: bool, last: bool)
    requires g.gapSize == 0 && height >= 0
    ensures var half := g.separatorHeight / 2;
            ClickableHeight(g, height, first, last)
            == if first && last then Max(0, height + 2 * g.frameWidth - g.separatorHeight % 2)
               else if first || last then height + g.frameWidth + half
               else height + g.separatorHeight
  {
    var s, w := g.separatorHeight, g.frameWidth;
    var half := s as real / 2.0;
    HalfFloor(s, height + s + w);
    assert ((height + s) as real + (w as real - half)) == (height + s + w) as real - half;
    var s1 := height + w + s / 2;
    assert height + s + w - (s + 1) / 2 == s1;
    if first && last && s1 + w >= (s + 1) / 2 {
      HalfFloor(s, s1 + w);
      assert (s1 as real + (w as real - half)) == (s1 + w) as real - half;
    }
  }

  lemma HalfFloor(s: nat, x: int)
    requires x >= (s + 1) / 2
    ensures Trunc(x as real - s as real / 2.0) == x - (s + 1) / 2
  {
    var k := s / 2;
    if s % 2 == 0 {
      assert s as real / 2.0 == k as real;
    } else {
      assert s as real / 2.0 == k as real + 0.5;
    }
  }

  predicate TopSet(g: Geometry) { g.corners & C_TOP != 0 }

  predicate BottomSet(g: Geometry) { g.corners & C_BOT != 0 }

  /** Only the four corner bits may be configured. */
  predicate ValidCorners(g: Geometry) { g.corners <= 15 }

  lemma CornerFacts(c: bv8, s: bv8)
    requires s <= 15
    ensures !HasTop(CornersNext(c)) && HasBottom(CornersNext(c)) == HasBottom(c)
    ensures HasTop((s & C_TOP) | C_FIRST) && !HasBottom((s & C_TOP) | C_FIRST)
    ensures HasBottom(c | ((s & C_BOT) | C_LAST)) && HasTop(c | ((s & C_BOT) | C_LAST)) == HasTop(c)
    ensures HasTop(s) == (s & C_TOP != 0) && HasBottom(s) == (s & C_BOT != 0)
  {
  }

  /** Row `i` is painted at or below `from` and found under all of its pixel rows, by the
      search that starts at `curr`. */
  ghost predicate RowFound(g: Geometry, hs: seq<int>, curr: int, first: bool, at: nat, from: int, b: Span, i: nat) {
    b.top >= from && forall y | b.top <= y < b.bottom :: FindAt(g, hs, curr, first, at, y) == Some(at + i)
  }

  ghost predicate RowsFound(g: Geometry, hs: seq<int>, curr: int, first: bool, at: nat, from: int, b: seq<Span>) {
    forall i | 0 <= i < |b| :: RowFound(g, hs, curr, first, at, from, b[i], i)
  }

  /** The rows behind the first are found when the first row is passed over. */
  lemma RestFound(g: Geometry, hs: seq<int>, curr: int, first: bool, at: nat, from: int, b: seq<Span>, from': int)
    requires hs != [] && b != [] && from <= from'
    requires RowFound(g, hs, curr, first, at, from, b[0], 0)
    requires curr + ClickableHeight(g, hs[0], first, |hs| == 1) <= from'
    requires RowsFound(g, hs[1..], curr + ClickableHeight(g, hs[0], first, |hs| == 1) + g.gapSize, false,
                       at + 1, from', b[1..])
    ensures RowsFound(g, hs, curr, first, at, from, b)
  {
    var next := curr + ClickableHeight(g, hs[0], first, |hs| == 1) + g.gapSize;
    forall i | 0 <= i < |b| ensures RowFound(g, hs, curr, first, at, from, b[i], i) {
      if i > 0 {
        assert RowFound(g, hs[1..], next, false, at + 1, from', b[1..][i - 1], i - 1);
        assert b[1..][i - 1] == b[i];
      }
    }
  }

  /** Without a gap, from the second row on: painting is ahead of clicking by half a
      separator, rounded up. */
  lemma {:induction false} RowsAgree(g: Geometry, hs: seq<int>, corners: bv8, paintY: int, clickY: int, at: nat)
    requires g.gapSize == 0 && g.corners <= 15 && NonNegative(hs)
    requires g.frameWidth >= 1 || g.separatorHeight % 2 == 0
    requires !HasTop(corners) && !HasBottom(corners)
    requires paintY == clickY + (g.separatorHeight + 1) / 2
    ensures RowsFound(g, hs, clickY, false, at, paintY, Bodies(g, hs, corners, paintY))
  {
    if hs != [] {
      var last := |hs| == 1;
      assert hs[0] >= 0;
      CornerFacts(corners, g.corners);
      ClickableExactly(g, hs[0], false, last);
      var b := Bodies(g, hs, corners, paintY);
      assert RowFound(g, hs, clickY, false, at, paintY, b[0], 0);
      if !last {
        var next := paintY + hs[0] + g.separatorHeight;
        RowsAgree(g, hs[1..], CornersNext(corners), next, clickY + hs[0] + g.separatorHeight, at + 1);
        RestFound(g, hs, clickY, false, at, paintY, b, next);
      }
    }
  }

  /** Without a gap the first row has the frame above it. */
  lemma NoGapAgrees(g: Geometry, hs: seq<int>)
    requires g.gapSize == 0 && ValidCorners(g) && NonNegative(hs)
    requires g.frameWidth >= 1 || g.separatorHeight % 2 == 0
    ensures ClicksAgree(g, hs)
  {
    if hs != [] {
      var corners: bv8 := (g.corners & C_TOP) | C_FIRST;
      var last := |hs| == 1;
      assert hs[0] >= 0;
      CornerFacts(corners, g.corners);
      ClickableExactly(g, hs[0], true, last);
      var b := Painted(g, hs);
      assert RowFound(g, hs, 0, true, 0, 0, b[0], 0);
      if !last {
        var next := g.frameWidth + hs[0] + g.separatorHeight;
        RowsAgree(g, hs[1..], CornersNext(corners), next, hs[0] + g.frameWidth + g.separatorHeight / 2, 1);
        RestFound(g, hs, 0, true, 0, 0, b, next);
      }
      FoundAgrees(g, hs);
    }
  }

  lemma FoundAgrees(g: Geometry, hs: seq<int>)
    requires RowsFound(g, hs, 0, true, 0, 0, Painted(g, hs))
    ensures ClicksAgree(g, hs)
  {
    forall i, y | 0 <= i < |hs| && Hits(g, hs, i, y) ensures NotificationAt(g, hs, y) == Some(i) {
      assert RowFound(g, hs, 0, true, 0, 0, Painted(g, hs)[i], i);
    }
  }

  /** With a gap every row has its own frame, as long as its corner flags say so. */
  lemma {:induction false} FramedRowsAgree(g: Geometry, hs: seq<int>, corners: bv8, top: int, at: nat, first: bool)
    requires g.gapSize != 0 && ValidCorners(g) && NonNegative(hs)
    requires g.frameWidth == 0 || (TopSet(g) && BottomSet(g))
    ensures RowsFound(g, hs, top, first, at, top, Bodies(g, hs, corners, top))
  {
    if hs != [] {
      assert hs[0] >= 0;
      CornerFacts(corners, g.corners);
      var next := top + hs[0] + 2 * g.frameWidth + g.gapSize;
      var b := Bodies(g, hs, corners, top);
      assert RowFound(g, hs, top, first, at, top, b[0], 0);
      FramedRowsAgree(g, hs[1..], CornersNext(g.corners), next, at + 1, false);
      RestFound(g, hs, top, first, at, top, b, next);
    }
  }

  lemma FirstBody(g: Geometry, hs: seq<int>, corners: bv8, y: int)
    requires hs != []
    ensures var c := CornersNow(g, corners, |hs| == 1);
            var top := y + FrameAbove(g, c);
            Bodies(g, hs, corners, y)
            == [Span(top, top + hs[0])] + Bodies(g, hs[1..], CornersNext(c), NextTop(g, c, hs[0], y))
  {
  }

  lemma BottomCornersKeepTop(g: Geometry, corners: bv8)
    ensures FrameAbove(g, CornersNow(g, corners, true)) == FrameAbove(g, CornersNow(g, corners, false))
  {
    var s := g.corners;
    assert HasTop(corners | ((s & C_BOT) | C_LAST)) == HasTop(corners);
  }

  /** A further row at the bottom, such as "(N more)", leaves the others where they are. */
  lemma {:induction false} ExtraRowMovesNothing(g: Geometry, hs: seq<int>, extra: int, corners: bv8, y: int)
    ensures Bodies(g, hs + [extra], corners, y)[..|hs|] == Bodies(g, hs, corners, y)
  {
    if hs != [] {
      var all := hs + [extra];
      BottomCornersKeepTop(g, corners);
      FirstBody(g, hs, corners, y);
      FirstBody(g, all, corners, y);
      assert all[1..] == hs[1..] + [extra];
      var c := CornersNow(g, corners, false);
      ExtraRowMovesNothing(g, hs[1..], extra, CornersNext(c), NextTop(g, c, hs[0], y));
      if |hs| == 1 {
        assert hs[1..] == [];
      }
    }
  }

  // ---------- and where they do not ----------

  /** Without a frame an odd separator costs the last row its last pixel. */
  lemma {:induction false} LastPixelMissed(g: Geometry, hs: seq<int>, corners: bv8, paintY: int, clickY: int, at: nat)
    requires g.gapSize == 0 && ValidCorners(g) && NonNegative(hs) && hs != [] && hs[|hs| - 1] > 0
    requires g.frameWidth == 0 && g.separatorHeight % 2 == 1
    requires paintY == clickY + (g.separatorHeight + 1) / 2
    ensures var y := Bodies(g, hs, corners, paintY)[|hs| - 1].bottom - 1;
            y >= paintY && FindAt(g, hs, clickY, false, at, y) == None
  {
    var last := |hs| == 1;
    assert hs[0] >= 0;
    ClickableExactly(g, hs[0], false, last);
    if !last {
      LastPixelMissed(g, hs[1..], CornersNext(corners), paintY + hs[0] + g.separatorHeight,
                      clickY + hs[0] + g.separatorHeight, at + 1);
    }
  }

  /** So does a single row. */
  lemma OnlyPixelMissed(g: Geometry, h: int)
    requires g.gapSize == 0 && g.frameWidth == 0 && g.separatorHeight % 2 == 1 && h > 0
    ensures NotificationAt(g, [h], h - 1) == None
  {
    ClickableExactly(g, h, true, true);
    assert [h][1..] == [];
    assert FindAt(g, [], h - 1, false, 1, h - 1) == None;
  }

  lemma LowerPixelMissed(g: Geometry, hs: seq<int>, corners: bv8)
    requires g.gapSize == 0 && ValidCorners(g) && NonNegative(hs) && |hs| > 1 && hs[|hs| - 1] > 0
    requires g.frameWidth == 0 && g.separatorHeight % 2 == 1
    ensures var y := Bodies(g, hs[1..], corners, hs[0] + g.separatorHeight)[|hs| - 2].bottom - 1;
            NotificationAt(g, hs, y) == None
  {
    var half := g.separatorHeight / 2;
    assert hs[0] >= 0;
    ClickableExactly(g, hs[0], true, false);
    LastPixelMissed(g, hs[1..], corners, hs[0] + g.separatorHeight, hs[0] + half, 1);
    assert FindAt(g, hs[1..], hs[0] + half + g.gapSize, false, 1,
                  Bodies(g, hs[1..], corners, hs[0] + g.separatorHeight)[|hs| - 2].bottom - 1) == None;
  }

  lemma FramelessOddFails(g: Geometry, hs: seq<int>)
    requires g.gapSize == 0 && ValidCorners(g) && NonNegative(hs) && hs != [] && hs[|hs| - 1] > 0
    requires g.frameWidth == 0 && g.separatorHeight % 2 == 1
    ensures !ClicksAgree(g, hs)
  {
    var corners: bv8 := (g.corners & C_TOP) | C_FIRST;
    var last := |hs| - 1;
    var y := Painted(g, hs)[last].bottom - 1;
    BodyHeights(g, hs, corners, 0, last);
    FirstBody(g, hs, corners, 0);
    if last == 0 {
      assert hs == [hs[0]];
      OnlyPixelMissed(g, hs[0]);
    } else {
      LowerPixelMissed(g, hs, CornersNext(CornersNow(g, corners, false)));
    }
    assert Hits(g, hs, last, y);
  }

  lemma {:induction false} BodyHeights(g: Geometry, hs: seq<int>, corners: bv8, y: int, i: nat)
    requires i < |hs|
    ensures var b := Bodies(g, hs, corners, y); b[i].bottom == b[i].top + hs[i]
  {
    var c := CornersNow(g, corners, |hs| == 1);
    var next := NextTop(g, c, hs[0], y);
    if i > 0 { BodyHeights(g, hs[1..], CornersNext(c), next, i - 1); }
  }

  lemma ThirdBody(g: Geometry)
    requires g.gapSize != 0 && ValidCorners(g)
    ensures var top := FrameAbove(g, g.corners);
            Painted(g, [1, 1, 1])[2].top == 2 * (top + FrameBelow(g, g.corners) + 1 + g.gapSize) + top
  {
    var hs: seq<int> := [1, 1, 1];
    var c := CornersNext(g.corners);
    var step := FrameAbove(g, g.corners) + FrameBelow(g, g.corners) + 1 + g.gapSize;
    assert hs[1..] == [1, 1] && hs[1..][1..] == [1] && [1][1..] == [];
    FirstBody(g, hs, (g.corners & C_TOP) | C_FIRST, 0);
    FirstBody(g, [1, 1], c, step);
    FirstBody(g, [1], c, 2 * step);
  }

  lemma ThirdMissed(g: Geometry, y: int)
    requires g.gapSize != 0 && y < 2 * (1 + g.frameWidth * 2 + g.gapSize)
    ensures NotificationAt(g, [1, 1, 1], y) != Some(2)
  {
    var hs: seq<int> := [1, 1, 1];
    var size := 1 + g.frameWidth * 2;
    assert hs[1..] == [1, 1] && hs[1..][1..] == [1] && [1][1..] == [];
    assert FindAt(g, [1], 2 * (size + g.gapSize), false, 2, y) != Some(2);
    assert FindAt(g, [1, 1], size + g.gapSize, false, 1, y) != Some(2);
  }

  /** With a gap, a frame, and no top corner or no bottom corner, the third row is off. */
  lemma MissingCornerFails(g: Geometry)
    requires g.gapSize != 0 && ValidCorners(g)
    requires g.frameWidth >= 1 && !(TopSet(g) && BottomSet(g))
    ensures !ClicksAgree(g, [1, 1, 1])
  {
    var hs: seq<int> := [1, 1, 1];
    var top, below := FrameAbove(g, g.corners), FrameBelow(g, g.corners);
    var y := 2 * (top + below + 1 + g.gapSize) + top;
    CornerFacts(0, g.corners);
    ThirdBody(g);
    BodyHeights(g, hs, (g.corners & C_TOP) | C_FIRST, 0, 2);
    assert Hits(g, hs, 2, y);
    ThirdMissed(g, y);
  }

  // ---------- exactly when ----------

  /** Without a gap, clicks and painting agree exactly when there is a frame or the
      separator height is even. */
  lemma NoGapAgreesIff(g: Geometry, hs: seq<int>)
    requires g.gapSize == 0 && ValidCorners(g) && NonNegative(hs) && hs != [] && hs[|hs| - 1] > 0
    ensures ClicksAgree(g, hs) <==> g.frameWidth >= 1 || g.separatorHeight % 2 == 0
  {
    if g.frameWidth >= 1 || g.separatorHeight % 2 == 0 {
      NoGapAgrees(g, hs);
    } else {
      FramelessOddFails(g, hs);
    }
  }

  /** With a gap they agree for all rows exactly when there is no frame, or a top and a
      bottom corner are set. */
  lemma GapAgreesIff(g: Geometry)
    requires g.gapSize != 0 && ValidCorners(g)
    ensures (forall hs: seq<int> | NonNegative(hs) :: ClicksAgree(g, hs))
            <==> g.frameWidth == 0 || (TopSet(g) && BottomSet(g))
  {
    if g.frameWidth == 0 || (TopSet(g) && BottomSet(g)) {
      forall hs: seq<int> | NonNegative(hs) ensures ClicksAgree(g, hs) {
        FramedRowsAgree(g, hs, (g.corners & C_TOP) | C_FIRST, 0, 0, true);
        FoundAgrees(g, hs);
      }
    } else {
      MissingCornerFails(g);
      assert NonNegative([1, 1, 1]);
    }
  }

  // ---------- tiling ----------

  function ClickEnd(g: Geometry, hs: seq<int>, curr: int, first: bool): int {
    if hs == [] then curr
    else ClickEnd(g, hs[1..], curr + ClickableHeight(g, hs[0], first, |hs| == 1) + g.gapSize, false)
  }

  lemma {:induction false} RowsTile(g: Geometry, hs: seq<int>, curr: int, first: bool, at: nat, y: int)
    requires g.gapSize == 0 && NonNegative(hs)
    ensures ClickEnd(g, hs, curr, first) >= curr
    ensures FindAt(g, hs, curr, first, at, y).Some? <==> curr <= y < ClickEnd(g, hs, curr, first)
  {
    if hs != [] {
      assert hs[0] >= 0;
      ClickableExactly(g, hs[0], first, |hs| == 1);
      RowsTile(g, hs[1..], curr + ClickableHeight(g, hs[0], first, |hs| == 1), false, at + 1, y);
    }
  }

  lemma {:induction false} RestEnds(g: Geometry, hs: seq<int>, curr: int)
    requires g.gapSize == 0 && NonNegative(hs) && hs != []
    ensures ClickEnd(g, hs, curr, false)
            == curr + Sum(hs) + (|hs| - 1) * g.separatorHeight + g.frameWidth + g.separatorHeight / 2
  {
    assert hs[0] >= 0;
    ClickableExactly(g, hs[0], false, |hs| == 1);
    if |hs| > 1 {
      RestEnds(g, hs[1..], curr + hs[0] + g.separatorHeight);
    } else {
      assert Sum(hs[1..]) == 0;
    }
  }

  lemma AllEnds(g: Geometry, hs: seq<int>)
    requires g.gapSize == 0 && NonNegative(hs) && hs != []
    ensures var h := WindowHeight(g, hs) - g.separatorHeight % 2;
            ClickEnd(g, hs, 0, true) == if |hs| == 1 then Max(0, h) else h
  {
    assert hs[0] >= 0;
    ClickableExactly(g, hs[0], true, |hs| == 1);
    if |hs| > 1 {
      var first := hs[0] + g.frameWidth + g.separatorHeight / 2;
      RestEnds(g, hs[1..], first);
      assert ClickEnd(g, hs, 0, true) == ClickEnd(g, hs[1..], first, false);
      assert Sum(hs) == hs[0] + Sum(hs[1..]);
      LastSeparator(g.separatorHeight, |hs|);
    } else {
      assert hs[1..] == [] && Sum(hs[1..]) == 0;
      assert WindowHeight(g, hs) == hs[0] + 2 * g.frameWidth;
    }
  }

  lemma LastSeparator(s: nat, n: nat)
    requires n >= 1
    ensures (n - 1) * s == (n - 2) * s + s && s / 2 + s / 2 == s - s % 2
  {
  }

  /** Without gaps the click intervals tile the window from the top: its whole height for
      an even separator, all but the last pixel row for an odd one. */
  lemma ClicksTileTheWindow(g: Geometry, hs: seq<int>, y: int)
    requires g.gapSize == 0 && NonNegative(hs) && hs != []
    ensures NotificationAt(g, hs, y).Some? <==> 0 <= y < WindowHeight(g, hs) - g.separatorHeight % 2
  {
    RowsTile(g, hs, 0, true, 0, y);
    AllEnds(g, hs);
  }
}
