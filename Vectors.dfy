/**
 * The `Vector` of ch6-exercise1.js: a point of the plane with `plus` and
 * `minus`, each returning a new vector and leaving both operands alone.
 * Coordinates are integers here.
 */
module Vectors {
  /** `new Vector(x, y)`: the constructor stores both coordinates as given. */
  datatype Vector = Vector(x: int, y: int)
  {
    /** `plus(vector)`: the componentwise sum. */
    function Plus(other: Vector): (r: Vector)
      ensures r.Minus(other) == this
    {
      Vector(x + other.x, y + other.y)
    }

    /** `minus(vector)`: the componentwise difference. */
    function Minus(other: Vector): (r: Vector)
      ensures r.x + other.x == x && r.y + other.y == y
    {
      Vector(x - other.x, y - other.y)
    }

    /** The radicand of the `length` getter: `x * x + y * y`. */
    function LengthSquared(): (n: int)
      ensures n >= 0
      ensures n == 0 <==> this == Vector(0, 0)
    {
      x * x + y * y
    }
  }

  /** Subtracting a vector and adding it back gives the first vector again. */
  lemma MinusPlus(v: Vector, w: Vector)
    ensures v.Minus(w).Plus(w) == v
  {
  }

  /** The order of the operands of `plus` does not matter. */
  lemma PlusCommutes(v: Vector, w: Vector)
    ensures v.Plus(w) == w.Plus(v)
  {
  }

  /** The calls at the end of ch6-exercise1.js. */
  lemma VectorExamples()
    ensures Vector(1, 2).Plus(Vector(2, 3)) == Vector(3, 5)
    ensures Vector(1, 2).Minus(Vector(2, 3)) == Vector(-1, -1)
    ensures Vector(3, 4).LengthSquared() == 5 * 5
  {
  }
}
