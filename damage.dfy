/**
  The damage model of vt/damage.go: a damaged area is a single cell, a
  rectangle, or the whole screen, and each knows the rectangle that bounds it.
  The Go interface with three implementing types becomes one datatype with
  three variants.
 */
module Vt {

  /** A rectangle given by its origin and size, as built by Rect(x, y, w, h). */
  datatype Rectangle = Rectangle(x: int, y: int, width: int, height: int)

  /** The cell (px, py) lies inside r: x <= px < x + width, and likewise for y. */
  predicate Contains(r: Rectangle, px: int, py: int) {
    r.x <= px < r.x + r.width && r.y <= py < r.y + r.height
  }

  datatype Damage =
    | CellDamage(cx: int, cy: int)
    | RectDamage(rect: Rectangle)
    | ScreenDamage(screenWidth: int, screenHeight: int)

  /** The cells a damaged area stands for, stated without rectangles: one
      cell, the cells of the rectangle, or every cell of a screen whose
      origin is (0, 0). */
  predicate Damaged(d: Damage, px: int, py: int) {
    match d
    case CellDamage(cx, cy) => px == cx && py == cy
    case RectDamage(r) => r.x <= px < r.x + r.width && r.y <= py < r.y + r.height
    case ScreenDamage(w, h) => 0 <= px < w && 0 <= py < h
  }

  /** Bounds: the rectangle that covers exactly the damaged cells. A cell is
      a 1x1 rectangle at its position, a rectangle is its own bounds, and the
      screen's bounds start at the origin. */
  function Bounds(d: Damage): (r: Rectangle)
    ensures forall px, py :: Contains(r, px, py) <==> Damaged(d, px, py)
    ensures d.CellDamage? ==> r.width == 1 && r.height == 1
    ensures d.RectDamage? ==> r == d.rect
    ensures d.ScreenDamage? ==> r.x == 0 && r.y == 0
    ensures d.ScreenDamage? ==> r.width == d.screenWidth && r.height == d.screenHeight
  {
    match d
    case CellDamage(cx, cy) => Rectangle(cx, cy, 1, 1)
    case RectDamage(r) => r
    case ScreenDamage(w, h) => Rectangle(0, 0, w, h)
  }

  /** RectDamage.X: the x-coordinate of the damaged area. */
  function X(d: Damage): (v: int)
    requires d.RectDamage?
    ensures v == Bounds(d).x
  {
    d.rect.x
  }

  /** RectDamage.Y: the y-coordinate of the damaged area. */
  function Y(d: Damage): (v: int)
    requires d.RectDamage?
    ensures v == Bounds(d).y
  {
    d.rect.y
  }

  /** RectDamage.Width: the width of the damaged area. */
  function Width(d: Damage): (v: int)
    requires d.RectDamage?
    ensures v == Bounds(d).width
  {
    d.rect.width
  }

  /** RectDamage.Height: the height of the damaged area. */
  function Height(d: Damage): (v: int)
    requires d.RectDamage?
    ensures v == Bounds(d).height
  {
    d.rect.height
  }

  /** A damaged cell's bounds hold that cell and no other. */
  lemma CellBoundsExact(cx: int, cy: int, px: int, py: int)
    ensures Contains(Bounds(CellDamage(cx, cy)), px, py) <==> px == cx && py == cy
  {
  }

  /** Three concrete values: RectDamage{2, 3, 4, 5}, CellDamage{1, 1} and
      ScreenDamage{80, 24}. */
  lemma BoundsExamples()
    ensures Bounds(RectDamage(Rectangle(2, 3, 4, 5))) == Rectangle(2, 3, 4, 5)
    ensures Bounds(CellDamage(1, 1)) == Rectangle(1, 1, 1, 1)
    ensures Bounds(ScreenDamage(80, 24)) == Rectangle(0, 0, 80, 24)
  {
  }
}
