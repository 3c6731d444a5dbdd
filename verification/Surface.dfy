/** Where every row stands in the window and how high it is, in pixels (calculate_dimensions,
    calculate_notification_dimensions and the loop in draw, src/draw.c). */
module Surface {
  import opened Notifications
  import opened Window

  // ---------- where rows stand ----------

  /** What is above and below the body of a row when every row has a frame of its own. */
  function OwnTop(g: Geometry): nat { if g.corners & 3 != 0 then g.frameWidth else 0 }

  function OwnBottom(g: Geometry): nat { if g.corners & 12 != 0 then g.frameWidth else 0 }

  lemma OwnFrames(g: Geometry)
    requires ValidCorners(g)
    ensures FrameAbove(g, g.corners) == OwnTop(g) && FrameBelow(g, g.corners) == OwnBottom(g)
  {
    var s := g.corners;
    assert s & (C_TOP | C_FIRST) == s & 3 && s & (C_BOT | C_LAST) == s & 12;
  }

  lemma SumFrom(hs: seq<int>, i: nat)
    requires 0 < i <= |hs|
    ensures Sum(hs[..i]) == hs[0] + Sum(hs[1..][..i - 1])
  {
    assert hs[..i][0] == hs[0] && hs[..i][1..] == hs[1..][..i - 1];
  }

  /** With a gap: a frame, the body, a frame, the gap, and so on, where a frame is drawn only next to
      a rounded corner. */
  lemma {:induction false} FramedBodyAt(g: Geometry, hs: seq<int>, corners: bv8, y: int, i: nat)
    requires g.gapSize != 0 && ValidCorners(g) && i < |hs|
    ensures var b := Bodies(g, hs, corners, y)[i];
            && b.top == y + Sum(hs[..i]) + i * (OwnTop(g) + OwnBottom(g) + g.gapSize) + OwnTop(g)
            && b.bottom == b.top + hs[i]
  {
    OwnFrames(g);
    FirstBody(g, hs, corners, y);
    BodyHeights(g, hs, corners, y, i);
    if i > 0 {
      var step := OwnTop(g) + OwnBottom(g) + g.gapSize;
      FramedBodyAt(g, hs[1..], CornersNext(g.corners), y + step + hs[0], i - 1);
      SumFrom(hs, i);
      assert i * step == (i - 1) * step + step;
    }
  }

  /** Without: one frame at the top and one at the bottom, and separators between the rows. */
  lemma {:induction false} LaterBodyAt(g: Geometry, hs: seq<int>, corners: bv8, y: int, i: nat)
    requires g.gapSize == 0 && ValidCorners(g) && !HasTop(corners) && !HasBottom(corners) && i < |hs|
    ensures var b := Bodies(g, hs, corners, y)[i];
            b.top == y + Sum(hs[..i]) + i * g.separatorHeight && b.bottom == b.top + hs[i]
  {
    CornerFacts(corners, g.corners);
    FirstBody(g, hs, corners, y);
    BodyHeights(g, hs, corners, y, i);
    if i > 0 {
      LaterBodyAt(g, hs[1..], CornersNext(corners), y + hs[0] + g.separatorHeight, i - 1);
      SumFrom(hs, i);
      assert i * g.separatorHeight == (i - 1) * g.separatorHeight + g.separatorHeight;
    }
  }

  /** Where the body of row `i` is painted. */
  lemma BodyStandsAt(g: Geometry, hs: seq<int>, i: nat)
    requires ValidCorners(g) && i < |hs|
    ensures var b := Painted(g, hs)[i];
            && b.bottom == b.top + hs[i]
            && b.top == if g.gapSize == 0 then g.frameWidth + Sum(hs[..i]) + i * g.separatorHeight
                        else Sum(hs[..i]) + i * (OwnTop(g) + OwnBottom(g) + g.gapSize) + OwnTop(g)
  {
    var corners: bv8 := (g.corners & C_TOP) | C_FIRST;
    CornerFacts(corners, g.corners);
    if g.gapSize != 0 {
      FramedBodyAt(g, hs, corners, 0, i);
    } else {
      FirstBody(g, hs, corners, 0);
      BodyHeights(g, hs, corners, 0, i);
      if i > 0 {
        LaterBodyAt(g, hs[1..], CornersNext(corners), g.frameWidth + hs[0] + g.separatorHeight, i - 1);
        SumFrom(hs, i);
        assert i * g.separatorHeight == (i - 1) * g.separatorHeight + g.separatorHeight;
      }
    }
  }

  lemma {:induction false} SumSnoc(hs: seq<int>)
    requires hs != []
    ensures Sum(hs) == Sum(hs[..|hs| - 1]) + hs[|hs| - 1]
  {
    if |hs| > 1 {
      SumSnoc(hs[1..]);
      assert hs[1..][..|hs| - 2] == hs[..|hs| - 1][1..];
    } else {
      assert hs[1..] == [];
    }
  }

  /** The rows never overlap: each begins below the one before it, by the separator, or by the gap
      and what frames there are. */
  lemma RowsFollow(g: Geometry, hs: seq<int>, i: nat)
    requires ValidCorners(g) && i + 1 < |hs|
    ensures Painted(g, hs)[i + 1].top
            == Painted(g, hs)[i].bottom + (if g.gapSize == 0 then g.separatorHeight
                                           else OwnBottom(g) + g.gapSize + OwnTop(g))
  {
    BodyStandsAt(g, hs, i);
    BodyStandsAt(g, hs, i + 1);
    assert hs[..i + 1][..i] == hs[..i];
    SumSnoc(hs[..i + 1]);
    var step := OwnTop(g) + OwnBottom(g) + g.gapSize;
    assert (i + 1) * step == i * step + step;
    assert (i + 1) * g.separatorHeight == i * g.separatorHeight + g.separatorHeight;
  }

  lemma Distributed(n: nat, f: nat, top: nat, bottom: nat, gap: nat)
    requires n > 0
    ensures n * (2 * f) + (n * gap - gap) - ((n - 1) * (top + bottom + gap) + top)
            == n * (2 * f - top - bottom) + bottom
  {
    assert (n - 1) * (top + bottom + gap) == n * (top + bottom) + n * gap - (top + bottom + gap);
    assert n * (2 * f - top - bottom) == n * (2 * f) - n * (top + bottom);
  }

  lemma FrameMissing(n: nat, f: nat, top: nat, bottom: nat)
    requires n > 0 && (top == 0 || top == f) && (bottom == 0 || bottom == f)
    ensures n * (2 * f - top - bottom) + bottom == f
            <==> f == 0 || top + bottom == 2 * f || (n == 1 && top == f)
  {
    var missing := 2 * f - top - bottom;
    if missing == f {
      assert n > 1 ==> n * f >= 2 * f;
    } else if missing == 2 * f {
      assert n * (2 * f) >= 2 * f;
    }
  }

  /** The window is exactly as high as what is painted: without a gap the last body ends one frame
      above its lower edge. With a gap it is too high by the frames that are missing. */
  lemma WindowFits(g: Geometry, hs: seq<int>)
    requires ValidCorners(g) && hs != []
    ensures WindowHeight(g, hs) - Painted(g, hs)[|hs| - 1].bottom
            == if g.gapSize == 0 then g.frameWidth
               else |hs| * (2 * g.frameWidth - OwnTop(g) - OwnBottom(g)) + OwnBottom(g)
  {
    BodyStandsAt(g, hs, |hs| - 1);
    SumSnoc(hs);
    Distributed(|hs|, g.frameWidth, OwnTop(g), OwnBottom(g), g.gapSize);
  }

  /** With a gap the last row ends one frame above the lower edge exactly when there is no frame,
      or a top and a bottom corner are rounded, or a single row has a rounded top. */
  lemma WindowFitsIff(g: Geometry, hs: seq<int>)
    requires ValidCorners(g) && hs != [] && g.gapSize != 0
    ensures WindowHeight(g, hs) == Painted(g, hs)[|hs| - 1].bottom + g.frameWidth
            <==> g.frameWidth == 0 || (g.corners & 3 != 0 && (g.corners & 12 != 0 || |hs| == 1))
  {
    WindowFits(g, hs);
    FrameMissing(|hs|, g.frameWidth, OwnTop(g), OwnBottom(g));
  }

  // ---------- how high rows are ----------

  function Clamped(g: Geometry, h: int): int {
    if h < g.heightMin then (if g.heightMax < g.heightMin then g.heightMax else g.heightMin)
    else if h > g.heightMax then g.heightMax else h
  }

  /** The progress bar is drawn for a row that is not the "(N more)" row. */
  function BarHeight(g: Geometry, it: Item): nat {
    if it.progress >= 0 && g.progressBar && !it.isMore then g.progressBarHeight + g.padding else 0
  }

  /** A row without an icon, or with icons off, is as high as its text, its bar and the padding above
      and below, within the bounds. */
  lemma TextRow(g: Geometry, it: Item)
    requires it.icon.None? || it.iconPosition == IconOff
    ensures PaintedHeight(g, it)
            == Clamped(g, (if it.hideText then 0 else it.textHeight) + BarHeight(g, it) + 2 * g.padding)
  {
  }

  /** An icon beside the text makes the row as high as the higher of the two. */
  lemma RowWithIconBeside(g: Geometry, it: Item)
    requires it.icon.Some? && (it.iconPosition == IconLeft || it.iconPosition == IconRight) && !it.isMore
    ensures var text := if it.hideText then 0 else it.textHeight;
            PaintedHeight(g, it)
            == Clamped(g, (if it.icon.value < text then text else it.icon.value) + BarHeight(g, it) + 2 * g.padding)
  {
  }

  /** An icon on top adds to the height of the text, with the padding that is set between the two. */
  lemma RowWithIconOnTop(g: Geometry, it: Item)
    requires it.icon.Some? && it.iconPosition == IconTop && !it.isMore
    ensures var between := if g.textIconPadding != 0 then g.textIconPadding else g.padding;
            PaintedHeight(g, it)
            == Clamped(g, it.icon.value + (if it.hideText then 0 else it.textHeight + between)
                          + BarHeight(g, it) + 2 * g.padding)
  {
  }

  /** The "(N more)" row has the height of its text alone; but where the head of waiting, in whose
      look it is drawn, has its icon on top, the padding below the icon stays. */
  lemma MoreRow(g: Geometry, it: Item)
    requires it.isMore
    ensures var between := if it.icon.Some? && it.iconPosition == IconTop && !it.hideText
                           then (if g.textIconPadding != 0 then g.textIconPadding else g.padding) else 0;
            PaintedHeight(g, it) == Clamped(g, (if it.hideText then 0 else it.textHeight) + between + 2 * g.padding)
  {
  }
}
