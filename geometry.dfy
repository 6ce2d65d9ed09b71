/** Integer geometry of the automaton: the points reported by the text recognizer,
    the centre of a recognized region, and the mapping from the captured image's
    client coordinates to absolute screen coordinates that every click goes through. */
module Geometry {

  datatype Point = Point(x: int, y: int)

  /** A window rectangle as the window manager reports it: (left, top, right, bottom).
      For the client area the left and top are 0 and right/bottom are its width/height. */
  datatype Rect = Rect(left: int, top: int, right: int, bottom: int)

  /** What a click looks up afresh each time: the window's outer rectangle and its
      client rectangle. */
  datatype WindowRects = WindowRects(outer: Rect, client: Rect)

  /** A recognized region's bounding quadrilateral: always four corner points. */
  type Quad = q: seq<Point> | |q| == 4
    witness [Point(0, 0), Point(0, 0), Point(0, 0), Point(0, 0)]

  function Min(a: int, b: int): int { if a <= b then a else b }
  function Max(a: int, b: int): int { if a <= b then b else a }

  function MinX(q: Quad): int { Min(Min(q[0].x, q[1].x), Min(q[2].x, q[3].x)) }
  function MaxX(q: Quad): int { Max(Max(q[0].x, q[1].x), Max(q[2].x, q[3].x)) }
  function MinY(q: Quad): int { Min(Min(q[0].y, q[1].y), Min(q[2].y, q[3].y)) }
  function MaxY(q: Quad): int { Max(Max(q[0].y, q[1].y), Max(q[2].y, q[3].y)) }

  /** `int(s / 4)` on an exact quotient: division truncated toward zero, as the
      conversion of the mean to an integer does. */
  function TruncQuarter(s: int): (r: int)
    ensures s >= 0 ==> 0 <= s - 4 * r < 4
    ensures s < 0 ==> 0 <= 4 * r - s < 4
  {
    if s >= 0 then s / 4 else -((-s) / 4)
  }

  /** The click target of a region: the mean of its four x's and of its four y's,
      each truncated to an integer. It always lies inside the quad's bounding box. */
  function QuadCenter(q: Quad): (c: Point)
    ensures MinX(q) <= c.x <= MaxX(q)
    ensures MinY(q) <= c.y <= MaxY(q)
    ensures (forall i :: 0 <= i < 4 ==> q[i].x >= 0 && q[i].y >= 0) ==>
              c.x >= 0 && c.y >= 0
  {
    Point(TruncQuarter(q[0].x + q[1].x + q[2].x + q[3].x),
          TruncQuarter(q[0].y + q[1].y + q[2].y + q[3].y))
  }

  /** Border width: half the difference between the outer and the client widths,
      rounded down (Python's floor division `//`). */
  function BorderWidth(w: WindowRects): (b: int)
    ensures 2 * b <= (w.outer.right - w.outer.left) - w.client.right < 2 * b + 2
  {
    ((w.outer.right - w.outer.left) - w.client.right) / 2
  }

  /** Title-bar height: the outer height less the client height less one border. */
  function TitleHeight(w: WindowRects): (t: int)
    ensures t + w.client.bottom + BorderWidth(w) == w.outer.bottom - w.outer.top
  {
    (w.outer.bottom - w.outer.top) - w.client.bottom - BorderWidth(w)
  }

  /** The absolute screen point that a click on client point `p` is sent to. */
  function ClientToScreen(w: WindowRects, p: Point): (s: Point)
    ensures ScreenToClient(w, s) == p
    ensures s.x - p.x == w.outer.left + BorderWidth(w)
    ensures s.y - p.y == w.outer.top + TitleHeight(w)
  {
    Point(w.outer.left + BorderWidth(w) + p.x, w.outer.top + TitleHeight(w) + p.y)
  }

  /** The inverse mapping, from a screen point back into client coordinates. */
  function ScreenToClient(w: WindowRects, s: Point): Point
  {
    Point(s.x - w.outer.left - BorderWidth(w), s.y - w.outer.top - TitleHeight(w))
  }

  /** The mapping is injective: distinct client points are clicked at distinct
      screen points. */
  lemma ClientToScreenInjective(w: WindowRects, p: Point, q: Point)
    requires ClientToScreen(w, p) == ClientToScreen(w, q)
    ensures p == q
  {
  }

  /** The client area sits inside the window frame: the bottom-right client corner
      is clicked one border above the outer bottom edge, and one border (plus the
      odd pixel of an uneven frame) left of the outer right edge. */
  lemma ClientAreaInsideFrame(w: WindowRects)
    ensures var s := ClientToScreen(w, Point(w.client.right, w.client.bottom));
            s.y == w.outer.bottom - BorderWidth(w) &&
            w.outer.right - BorderWidth(w) - 1 <= s.x <= w.outer.right - BorderWidth(w)
  {
  }

  /** The worked example: an outer window (100,100)-(500,700) with a 380x560 client
      area has a 10-pixel border and a 30-pixel title bar, so the client point
      (50,50) is clicked at screen point (160,180). */
  lemma MappingExample()
    ensures BorderWidth(WindowRects(Rect(100, 100, 500, 700), Rect(0, 0, 380, 560))) == 10
    ensures TitleHeight(WindowRects(Rect(100, 100, 500, 700), Rect(0, 0, 380, 560))) == 30
    ensures ClientToScreen(WindowRects(Rect(100, 100, 500, 700), Rect(0, 0, 380, 560)),
                           Point(50, 50)) == Point(160, 180)
  {
  }
}
