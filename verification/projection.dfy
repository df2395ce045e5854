/** The two affine maps between normalized device coordinates (NDC, both
    axes in [-1, 1], y pointing up) and pixel coordinates (origin at the top
    left, y pointing down) used in script.js: NDC to pixel when an overlay is
    placed on an object, pixel to NDC when a tap is turned into a ray.
    JavaScript doubles are modelled as exact reals. */
module Projection {

  datatype Ndc = Ndc(x: real, y: real)

  datatype Pixel = Pixel(x: real, y: real)

  /** The map area's bounding rectangle in client coordinates. */
  datatype Rect = Rect(left: real, top: real, width: real, height: real)

  /** Pixel position, relative to the renderer's top-left corner, of a point
      projected to `p` on a renderer of size `width` x `height`. */
  function NdcToPixel(width: real, height: real, p: Ndc): (r: Pixel)
    ensures p == Ndc(0.0, 0.0) ==> r == Pixel(width / 2.0, height / 2.0)
    ensures p == Ndc(-1.0, 1.0) ==> r == Pixel(0.0, 0.0)
    ensures p == Ndc(1.0, -1.0) ==> r == Pixel(width, height)
    ensures width > 0.0 && height > 0.0 && -1.0 <= p.x <= 1.0 && -1.0 <= p.y <= 1.0
            ==> 0.0 <= r.x <= width && 0.0 <= r.y <= height
  {
    assert width > 0.0 && -1.0 <= p.x <= 1.0 ==> 0.0 <= (width / 2.0) * (p.x + 1.0) <= width by {
      if width > 0.0 && -1.0 <= p.x <= 1.0 { HalfScaleBound(width, p.x + 1.0); }
    }
    assert height > 0.0 && -1.0 <= p.y <= 1.0 ==> 0.0 <= (height / 2.0) * -(p.y - 1.0) <= height by {
      if height > 0.0 && -1.0 <= p.y <= 1.0 { HalfScaleBound(height, -(p.y - 1.0)); }
    }
    Pixel((width / 2.0) * (p.x + 1.0), (height / 2.0) * -(p.y - 1.0))
  }

  lemma HalfScaleBound(a: real, t: real)
    requires a > 0.0 && 0.0 <= t <= 2.0
    ensures 0.0 <= (a / 2.0) * t <= a
  {
    assert (a / 2.0) * (2.0 - t) >= 0.0;
  }

  lemma DivOfProduct(b: real, w: real)
    requires w != 0.0
    ensures (b * w) / w == b
  {
  }

  /** Pointer position in client coordinates to NDC relative to `area`. */
  function PixelToNdc(area: Rect, clientX: real, clientY: real): (r: Ndc)
    requires area.width > 0.0 && area.height > 0.0
    ensures clientX == area.left && clientY == area.top ==> r == Ndc(-1.0, 1.0)
    ensures clientX == area.left + area.width && clientY == area.top + area.height
            ==> r == Ndc(1.0, -1.0)
    ensures area.left <= clientX <= area.left + area.width ==> -1.0 <= r.x <= 1.0
    ensures area.top <= clientY <= area.top + area.height ==> -1.0 <= r.y <= 1.0
  {
    var fx := (clientX - area.left) / area.width;
    var fy := (clientY - area.top) / area.height;
    assert area.left <= clientX <= area.left + area.width ==> 0.0 <= fx <= 1.0 by {
      if area.left <= clientX <= area.left + area.width {
        DivUnit(clientX - area.left, area.width);
      }
    }
    assert area.top <= clientY <= area.top + area.height ==> 0.0 <= fy <= 1.0 by {
      if area.top <= clientY <= area.top + area.height {
        DivUnit(clientY - area.top, area.height);
      }
    }
    assert clientX == area.left + area.width ==> fx == 1.0 by {
      if clientX == area.left + area.width { DivSelf(area.width); }
    }
    assert clientY == area.top + area.height ==> fy == 1.0 by {
      if clientY == area.top + area.height { DivSelf(area.height); }
    }
    Ndc(fx * 2.0 - 1.0, fy * -2.0 + 1.0)
  }

  lemma DivSelf(w: real)
    requires w != 0.0
    ensures w / w == 1.0
  {
  }

  lemma DivUnit(a: real, w: real)
    requires w > 0.0 && 0.0 <= a <= w
    ensures 0.0 <= a / w <= 1.0
  {
    assert a / w * w == a;
  }

  /** Converting a pointer position to NDC and back lands on the same pixel
      of the map area. */
  lemma PixelNdcRoundTrip(area: Rect, clientX: real, clientY: real)
    requires area.width > 0.0 && area.height > 0.0
    ensures NdcToPixel(area.width, area.height, PixelToNdc(area, clientX, clientY))
            == Pixel(clientX - area.left, clientY - area.top)
  {
    var fx := (clientX - area.left) / area.width;
    var fy := (clientY - area.top) / area.height;
    assert fx * area.width == clientX - area.left;
    assert fy * area.height == clientY - area.top;
  }

  /** Projecting to pixels and converting back through a map area that sits
      at the renderer's origin with the renderer's size recovers the NDC. */
  lemma NdcPixelRoundTrip(width: real, height: real, p: Ndc)
    requires width > 0.0 && height > 0.0
    ensures var q := NdcToPixel(width, height, p);
            PixelToNdc(Rect(0.0, 0.0, width, height), q.x, q.y) == p
  {
    var q := NdcToPixel(width, height, p);
    assert q.x == ((p.x + 1.0) / 2.0) * width;
    DivOfProduct((p.x + 1.0) / 2.0, width);
    assert q.y == ((1.0 - p.y) / 2.0) * height;
    DivOfProduct((1.0 - p.y) / 2.0, height);
  }

  /** Orientation: NDC x grows rightwards with pixel x, NDC y grows upwards
      while pixel y grows downwards. */
  lemma NdcToPixelOrientation(width: real, height: real, p: Ndc, q: Ndc)
    requires width > 0.0 && height > 0.0
    ensures p.x < q.x ==> NdcToPixel(width, height, p).x < NdcToPixel(width, height, q).x
    ensures p.y < q.y ==> NdcToPixel(width, height, p).y > NdcToPixel(width, height, q).y
  {
    if p.x < q.x { RightwardsIsRightwards(width, height, p, q); }
    if p.y < q.y { UpwardsIsUpwards(width, height, p, q); }
  }

  lemma RightwardsIsRightwards(width: real, height: real, p: Ndc, q: Ndc)
    requires width > 0.0 && p.x < q.x
    ensures NdcToPixel(width, height, p).x < NdcToPixel(width, height, q).x
  {
    HalfScaleStrict(width, p.x + 1.0, q.x + 1.0);
  }

  lemma UpwardsIsUpwards(width: real, height: real, p: Ndc, q: Ndc)
    requires height > 0.0 && p.y < q.y
    ensures NdcToPixel(width, height, p).y > NdcToPixel(width, height, q).y
  {
    HalfScaleStrict(height, -(q.y - 1.0), -(p.y - 1.0));
  }

  lemma HalfScaleStrict(a: real, s: real, t: real)
    requires a > 0.0 && s < t
    ensures (a / 2.0) * s < (a / 2.0) * t
  {
    ScaleStrict(a / 2.0, s, t);
  }

  lemma ScaleStrict(a: real, s: real, t: real)
    requires a > 0.0 && s < t
    ensures a * s < a * t
  {
    assert a * t - a * s == a * (t - s);
  }
}
