/** Types and arithmetic shared by the other modules. */
module Common {

  datatype Option<+T> = None | Some(value: T)

  datatype Point<+T> = Point(x: T, y: T)

  datatype Size = Size(w: int, h: int)

  datatype Rect = Rect(loc: Point<int>, size: Size) {
    /** Half-open containment, as for integer rectangles of the compositor. */
    predicate Contains(p: Point<int>) {
      && loc.x <= p.x < loc.x + size.w
      && loc.y <= p.y < loc.y + size.h
    }

    /** Containment of a fractional point, edges included. */
    predicate ContainsClosed(p: Point<real>) {
      && loc.x as real <= p.x <= (loc.x + size.w) as real
      && loc.y as real <= p.y <= (loc.y + size.h) as real
    }
  }

  /** A float-to-integer cast: the fraction is dropped, towards zero. */
  function Truncate(r: real): int {
    if r >= 0.0 then r.Floor else -((-r).Floor)
  }

  /** Rounding to the nearest integer, halves away from zero. */
  function Round(r: real): int {
    if r >= 0.0 then (r + 0.5).Floor else -((0.5 - r).Floor)
  }

  function Min(a: int, b: int): int { if a <= b then a else b }

  function Max(a: int, b: int): int { if a >= b then a else b }

  function Abs(a: int): int { if a >= 0 then a else -a }

  /** Appends `x` when it is present. */
  function Append<T>(s: seq<T>, x: Option<T>): seq<T> {
    match x
    case None => s
    case Some(v) => s + [v]
  }
}
