/** WPrefs.app/EffectsLayout.c: `wPrefsEffectsLayoutPanel` as a pure function
    from the panel box's size to the geometry of every widget it places. C
    `int` overflow is not modelled: the box size is an unbounded integer. */
module EffectsLayout {
  const OuterMargin: int := 8
  const InnerMargin: int := 12
  const RowHeight: int := 24
  const Spacing: int := 12
  /** Height of a check box or button row. */
  const ToggleHeight: int := 28
  const ValueWidth: int := 48

  /** A widget's position inside its parent and its size. */
  datatype Rect = Rect(x: int, y: int, width: int, height: int)

  function Right(r: Rect): int {
    r.x + r.width
  }

  /** Where every widget goes. The label and pop-up rows of both frames, and
      the single-line widgets of the compositor frame, are listed by name. */
  datatype Geometry = Geometry(
    scroll: Rect,
    contentWidth: int,
    contentHeight: int,
    transitionFrame: Rect,
    moveLabel: Rect,
    movePopUp: Rect,
    launchLabel: Rect,
    launchPopUp: Rect,
    showContent: Rect,
    compositorFrame: Rect,
    compositorLabel: Rect,
    compositorPopUp: Rect,
    autostart: Rect,
    shadow: Rect,
    opacityLabel: Rect,
    opacitySlider: Rect,
    opacityValue: Rect,
    statusLabel: Rect,
    statusValue: Rect,
    configPath: Rect,
    openConfig: Rect,
    hint: Rect)

  function Max(a: int, b: int): int {
    if a < b then b else a
  }

  /** `wPrefsEffectsLayoutPanel`, with each clamp written as in the code. The
      height of the transition frame that line 166 reads back is the one line
      106 set. `frameWidth / 2` is C division; its operand is positive here, so
      Dafny's division agrees with it. */
  function Layout(boxWidth: int, boxHeight: int): (g: Geometry)
    ensures g.scroll.width >= 240 && g.scroll.height >= 240
    ensures g.contentWidth >= 320
    ensures g.transitionFrame.width == g.contentWidth - 2 * OuterMargin >= 304
    ensures g.compositorFrame.width == g.transitionFrame.width
  {
    var scrollWidth0 := boxWidth - OuterMargin * 2;
    var scrollHeight0 := boxHeight - OuterMargin * 2;
    var scrollWidth := if scrollWidth0 < 240 then 240 else scrollWidth0;
    var scrollHeight := if scrollHeight0 < 240 then 240 else scrollHeight0;

    var contentWidth0 := scrollWidth - OuterMargin * 2;
    var contentWidth1 := if contentWidth0 < 320 then 320 else contentWidth0;
    var frameWidth0 := contentWidth1 - OuterMargin * 2;
    var frameWidth := if frameWidth0 < 260 then 260 else frameWidth0;
    var contentWidth :=
      if frameWidth0 < 260 && contentWidth1 < frameWidth + OuterMargin * 2
      then frameWidth + OuterMargin * 2 else contentWidth1;

    var controlWidth0 := frameWidth / 2;
    var controlWidth1 := if controlWidth0 < 220 then 220 else controlWidth0;
    var controlWidth := if controlWidth1 > frameWidth - InnerMargin * 2
                        then frameWidth - InnerMargin * 2 else controlWidth1;
    var controlX := frameWidth - controlWidth - InnerMargin;
    var labelWidth := if controlX - InnerMargin < 100 then 100 else controlX - InnerMargin;
    var availableWidth := if frameWidth - InnerMargin * 2 < 120 then 120 else frameWidth - InnerMargin * 2;

    var y0 := InnerMargin;
    var y1 := y0 + RowHeight + Spacing;
    var y2 := y1 + RowHeight + Spacing;
    var y3 := y2 + ToggleHeight + Spacing;
    var transitionFrame := Rect(OuterMargin, OuterMargin, frameWidth, y3 + InnerMargin);

    var c0 := InnerMargin;
    var c1 := c0 + RowHeight + Spacing;
    var c2 := c1 + ToggleHeight + Spacing;
    var c3 := c2 + ToggleHeight + Spacing;
    var sliderWidth := if controlWidth - ValueWidth - 6 < 120 then 120 else controlWidth - ValueWidth - 6;
    var c4 := c3 + RowHeight + Spacing;
    var c5 := c4 + RowHeight + Spacing;
    var c6 := c5 + 48 + Spacing;
    var buttonWidth := if controlWidth > availableWidth then availableWidth else controlWidth;
    var c7 := c6 + ToggleHeight + Spacing;
    var c8 := c7 + 60 + InnerMargin;

    var compositorTop := OuterMargin + transitionFrame.height + Spacing;
    var totalHeight0 := compositorTop + c8 + OuterMargin;
    var visibleHeight := if scrollHeight - OuterMargin * 2 < 0 then 0 else scrollHeight - OuterMargin * 2;
    var totalHeight := if totalHeight0 < visibleHeight then visibleHeight else totalHeight0;

    Geometry(
      Rect(OuterMargin, OuterMargin, scrollWidth, scrollHeight),
      contentWidth, totalHeight,
      transitionFrame,
      Rect(InnerMargin, y0, labelWidth, RowHeight),
      Rect(controlX, y0 - 2, controlWidth, RowHeight),
      Rect(InnerMargin, y1, labelWidth, RowHeight),
      Rect(controlX, y1 - 2, controlWidth, RowHeight),
      Rect(InnerMargin, y2, availableWidth, ToggleHeight),
      Rect(OuterMargin, compositorTop, frameWidth, c8),
      Rect(InnerMargin, c0, labelWidth, RowHeight),
      Rect(controlX, c0 - 2, controlWidth, RowHeight),
      Rect(InnerMargin, c1, availableWidth, ToggleHeight),
      Rect(InnerMargin, c2, availableWidth, ToggleHeight),
      Rect(InnerMargin, c3, labelWidth, RowHeight),
      Rect(controlX, c3, sliderWidth, RowHeight),
      Rect(controlX + sliderWidth + 6, c3, ValueWidth, RowHeight),
      Rect(InnerMargin, c4, labelWidth, RowHeight),
      Rect(controlX, c4, controlWidth, RowHeight),
      Rect(InnerMargin, c5, availableWidth, 48),
      Rect(InnerMargin, c6, buttonWidth, ToggleHeight),
      Rect(InnerMargin, c7, availableWidth, 60))
  }

  /** The frame width as a closed form of the box width: the 260-pixel clamp
      and the widening of the content that goes with it never happen. */
  lemma FrameWidthClosedForm(boxWidth: int, boxHeight: int)
    ensures var g := Layout(boxWidth, boxHeight);
      g.contentWidth == Max(Max(boxWidth - 16, 240) - 16, 320)
      && g.transitionFrame.width == g.contentWidth - 16
  {
  }

  /** The pop-up column is half the frame but at least 220 pixels; the clamp
      to the frame's inner width never binds, and the column ends exactly one
      inner margin short of the frame's right edge. */
  lemma ControlColumn(boxWidth: int, boxHeight: int)
    ensures var g := Layout(boxWidth, boxHeight);
      var frameWidth := g.transitionFrame.width;
      g.movePopUp.width == Max(frameWidth / 2, 220)
      && g.movePopUp.width <= frameWidth - 2 * InnerMargin
      && Right(g.movePopUp) + InnerMargin == frameWidth
  {
  }

  /** Every pop-up, the status value and the slider row share the control
      column: same left edge, and the value label ends where the column ends. */
  lemma RowsAligned(boxWidth: int, boxHeight: int)
    ensures var g := Layout(boxWidth, boxHeight);
      && g.launchPopUp.x == g.compositorPopUp.x == g.opacitySlider.x == g.statusValue.x == g.movePopUp.x
      && g.launchPopUp.width == g.compositorPopUp.width == g.statusValue.width == g.movePopUp.width
      && Right(g.opacityValue) == Right(g.movePopUp)
      && g.opacitySlider.width == g.movePopUp.width - ValueWidth - 6 >= 120
  {
  }

  /** Labels are at least 100 pixels wide; full-width rows span the frame's
      inner width, at least 280 pixels; the open button, at most that wide, is
      as wide as the control column. */
  lemma RowWidths(boxWidth: int, boxHeight: int)
    ensures var g := Layout(boxWidth, boxHeight);
      && g.moveLabel.width >= 100
      && g.showContent.width == g.transitionFrame.width - 2 * InnerMargin >= 280
      && g.openConfig.width <= g.showContent.width
      && g.openConfig.width == g.movePopUp.width
  {
  }

  /** The vertical layout does not depend on the box: the transition frame is
      136 pixels high, the compositor frame starts at 156 and is 372 high, and
      the content is at least as tall as the visible part of the scroll view. */
  lemma Heights(boxWidth: int, boxHeight: int)
    ensures var g := Layout(boxWidth, boxHeight);
      && g.transitionFrame.height == 136
      && g.compositorFrame.y == 156
      && g.compositorFrame.height == 372
      && g.contentHeight == Max(536, g.scroll.height - 2 * OuterMargin)
      && g.contentHeight >= g.scroll.height - 2 * OuterMargin >= 0
  {
  }

  /** Rows do not overlap vertically inside either frame, and the last one ends
      one inner margin above the frame's bottom. */
  lemma RowsStack(boxWidth: int, boxHeight: int)
    ensures var g := Layout(boxWidth, boxHeight);
      && g.moveLabel.y + RowHeight < g.launchLabel.y
      && g.launchLabel.y + RowHeight < g.showContent.y
      && g.showContent.y + ToggleHeight + InnerMargin < g.transitionFrame.height
      && g.compositorLabel.y + RowHeight < g.autostart.y
      && g.autostart.y + ToggleHeight < g.shadow.y
      && g.shadow.y + ToggleHeight < g.opacityLabel.y
      && g.opacityLabel.y + RowHeight < g.statusLabel.y
      && g.statusLabel.y + RowHeight < g.configPath.y
      && g.configPath.y + 48 < g.openConfig.y
      && g.openConfig.y + ToggleHeight < g.hint.y
      && g.hint.y + 60 + InnerMargin == g.compositorFrame.height
  {
  }

  /** The 100-pixel minimum of the labels makes a label run into the pop-up
      beside it exactly when the frame is narrower than 344 pixels, that is
      when the box is narrower than 392. */
  lemma LabelOverlapsControl(boxWidth: int, boxHeight: int)
    ensures var g := Layout(boxWidth, boxHeight);
      (Right(g.moveLabel) > g.movePopUp.x <==> g.transitionFrame.width < 344)
      && (g.transitionFrame.width < 344 <==> boxWidth < 392)
  {
  }
}
