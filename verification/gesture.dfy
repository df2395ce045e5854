/** Tap classification on the map area (script.js): `pointerdown` records the
    pointer position, and `pointerup` counts as a click only when the pointer
    moved less than 5 px on both axes since that recorded position. A click
    is then turned into NDC for the ray cast. */
module Gesture {
  import opened Wrappers
  import opened Projection

  /** The click threshold in pixels. */
  const Threshold: real := 5.0

  datatype Point = Point(x: real, y: real)

  /** `prevX, prevY`: `None` until the first pointer-down (the source's
      `undefined`, which makes every difference `NaN`). */
  datatype PointerState = PointerState(prev: Option<Point>)

  const Initial := PointerState(None)

  function Abs(a: real): real {
    if a < 0.0 then -a else a
  }

  /** `getPointerdownCoord`: overwrite the saved coordinates. Whatever was
      saved before, the next release is a tap exactly when it lies within
      the threshold of this press on both axes. */
  function PointerDown(st: PointerState, clientX: real, clientY: real): (r: PointerState)
    ensures r.prev == Some(Point(clientX, clientY))
    ensures forall cx, cy :: IsClick(r, cx, cy) <==>
              && clientX - Threshold < cx < clientX + Threshold
              && clientY - Threshold < cy < clientY + Threshold
  {
    PointerState(Some(Point(clientX, clientY)))
  }

  /** `isClick`: the release point lies in the open 10 x 10 square centred on
      the last pointer-down position; with no pointer-down yet it is never a
      click. */
  function IsClick(st: PointerState, currentX: real, currentY: real): (r: bool)
    ensures r <==> st.prev.Some?
                   && st.prev.value.x - Threshold < currentX < st.prev.value.x + Threshold
                   && st.prev.value.y - Threshold < currentY < st.prev.value.y + Threshold
  {
    match st.prev
    case None => false
    case Some(p) =>
      var deltaX := currentX - p.x;
      var deltaY := currentY - p.y;
      Abs(deltaX) < Threshold && Abs(deltaY) < Threshold
  }

  /** The part of `getClickedMapObj` before the ray cast: on a click, the
      pointer position in NDC relative to the map area; otherwise nothing.
      The saved pointer-down position is left as it is. */
  function PointerUp(st: PointerState, clientX: real, clientY: real, area: Rect): (r: Option<Ndc>)
    requires area.width > 0.0 && area.height > 0.0
    ensures r.Some? <==> IsClick(st, clientX, clientY)
    ensures r.Some? ==> NdcToPixel(area.width, area.height, r.value)
                        == Pixel(clientX - area.left, clientY - area.top)
  {
    if IsClick(st, clientX, clientY) then
      PixelNdcRoundTrip(area, clientX, clientY);
      Some(PixelToNdc(area, clientX, clientY))
    else
      None
  }

  /** A move of exactly the threshold on either axis is a drag. */
  lemma ThresholdIsExclusive(x: real, y: real, d: real)
    ensures !IsClick(PointerDown(Initial, x, y), x + Threshold, y + d)
    ensures !IsClick(PointerDown(Initial, x, y), x - Threshold, y + d)
    ensures !IsClick(PointerDown(Initial, x, y), x + d, y - Threshold)
    ensures !IsClick(PointerDown(Initial, x, y), x + d, y + Threshold)
  {
  }

  /** Only the most recent pointer-down matters. */
  lemma MostRecentDownDecides(st: PointerState, x0: real, y0: real, x1: real, y1: real, cx: real, cy: real)
    ensures IsClick(PointerDown(PointerDown(st, x0, y0), x1, y1), cx, cy)
            == IsClick(PointerDown(Initial, x1, y1), cx, cy)
  {
  }

  /** Releasing where the pointer went down is always a click, and without
      any pointer-down nothing is. */
  lemma ClickAtDownPoint(st: PointerState, x: real, y: real, cx: real, cy: real)
    ensures IsClick(PointerDown(st, x, y), x, y)
    ensures !IsClick(Initial, cx, cy)
  {
  }

  /** Down at (100, 100): up at (102, 103) is a tap, up at (100, 120) a drag. */
  lemma TapAndDragExamples()
    ensures IsClick(PointerDown(Initial, 100.0, 100.0), 102.0, 103.0)
    ensures !IsClick(PointerDown(Initial, 100.0, 100.0), 100.0, 120.0)
  {
  }
}
