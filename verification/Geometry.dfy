/**
  An axis-aligned rectangle with integer coordinates, as pygame.Rect: `x`, `y` is the
  top-left corner, the y axis points down.
*/
module Geometry {
  datatype Rect = Rect(x: int, y: int, w: int, h: int) {
    function Left(): int { x }
    function Right(): int { x + w }
    function Top(): int { y }
    function Bottom(): int { y + h }

    /** colliderect: the two rectangles overlap on an area (touching edges do not count). */
    predicate Collides(other: Rect) {
      x < other.x + other.w && other.x < x + w &&
      y < other.y + other.h && other.y < y + h
    }

    /** Assigning `rect.left = v` moves the rectangle, keeping its size. */
    function WithLeft(v: int): (r: Rect)
      ensures r.Left() == v && r.y == y && r.w == w && r.h == h
    {
      this.(x := v)
    }

    /** Assigning `rect.right = v` moves the rectangle, keeping its size. */
    function WithRight(v: int): (r: Rect)
      ensures r.Right() == v && r.y == y && r.w == w && r.h == h
    {
      this.(x := v - w)
    }

    /** The rectangle moved by (dx, dy): `x += dx`, `y += dy`. */
    function Translated(dx: int, dy: int): (r: Rect)
      ensures r.x == x + dx && r.y == y + dy && r.w == w && r.h == h
    {
      Rect(x + dx, y + dy, w, h)
    }
  }
}
