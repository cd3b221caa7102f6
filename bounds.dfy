/**
 * Bounds tracking: turning the DOM rectangle of the tile's main image and the
 * window's inner size into the size and offset of the tile's quad, in a world
 * whose origin is the viewport centre and whose y axis points up
 * (Tile.getBounds).
 */
module Bounds {

  datatype Vec2 = Vec2(x: real, y: real)
  datatype Vec3 = Vec3(x: real, y: real, z: real)

  /** A bounding client rectangle, in CSS pixels, y growing downwards. */
  datatype Rect = Rect(left: real, top: real, width: real, height: real)

  /** The window's inner width and height. */
  datatype Viewport = Viewport(width: real, height: real)

  const Origin := Vec2(0.0, 0.0)

  /** The size of the quad: the rectangle's width and height, undistorted. */
  function Size(r: Rect): Vec2 {
    Vec2(r.width, r.height)
  }

  /**
   * The offset of the quad: how far the rectangle's centre lies right of and
   * above the viewport's centre.
   */
  function Offset(r: Rect, vp: Viewport): (o: Vec2)
    ensures r.left + r.width / 2.0 == vp.width / 2.0 + o.x
    ensures r.top + r.height / 2.0 == vp.height / 2.0 - o.y
  {
    Vec2(r.left - vp.width / 2.0 + r.width / 2.0, -r.top + vp.height / 2.0 - r.height / 2.0)
  }

  /** The rectangle whose centre is the viewport's centre. */
  predicate Centred(r: Rect, vp: Viewport) {
    r.left + r.width / 2.0 == vp.width / 2.0 && r.top + r.height / 2.0 == vp.height / 2.0
  }

  /** The rectangle a quad of the given size and offset covers on screen. */
  function RectOf(size: Vec2, offset: Vec2, vp: Viewport): Rect {
    Rect(offset.x + vp.width / 2.0 - size.x / 2.0, vp.height / 2.0 - offset.y - size.y / 2.0, size.x, size.y)
  }

  /** The offset is the origin exactly when the rectangle is centred. */
  lemma OffsetIsOriginIffCentred(r: Rect, vp: Viewport)
    ensures Offset(r, vp) == Origin <==> Centred(r, vp)
  {
  }

  /** Size and offset lose nothing: together they give back the rectangle. */
  lemma BoundsDetermineRect(r: Rect, vp: Viewport)
    ensures RectOf(Size(r), Offset(r, vp), vp) == r
  {
  }

  /** Moving the element right and down moves the quad right and down: y is flipped. */
  lemma OffsetFollowsTranslation(r: Rect, vp: Viewport, dx: real, dy: real)
    ensures Offset(r.(left := r.left + dx, top := r.top + dy), vp)
         == Vec2(Offset(r, vp).x + dx, Offset(r, vp).y - dy)
  {
  }

  /** A 200x100 image at (860, 490) in a 1920x1080 window sits at the origin. */
  lemma CentredExample()
    ensures Size(Rect(860.0, 490.0, 200.0, 100.0)) == Vec2(200.0, 100.0)
    ensures Offset(Rect(860.0, 490.0, 200.0, 100.0), Viewport(1920.0, 1080.0)) == Origin
  {
  }
}
