/** The geometry exercise: 2-D and 3-D integer points with component-wise
    addition, subtraction and equality.  Coordinates are C++ ints; an
    operation whose result would leave the int range is undefined there, so
    its callers must keep the results in range. */
module GeometryOperations {
  import Limits

  datatype Point = Point(x: int, y: int) {

    predicate IsInt32() {
      Limits.IsInt32(x) && Limits.IsInt32(y)
    }

    /** operator+ */
    function Plus(point: Point): (r: Point)
      requires Limits.IsInt32(x + point.x) && Limits.IsInt32(y + point.y)
      ensures r.IsInt32()
      ensures r.x - point.x == x && r.y - point.y == y
    {
      Point(x + point.x, y + point.y)
    }

    /** operator- */
    function Minus(point: Point): (r: Point)
      requires Limits.IsInt32(x - point.x) && Limits.IsInt32(y - point.y)
      ensures r.IsInt32()
      ensures r.x + point.x == x && r.y + point.y == y
    {
      Point(x - point.x, y - point.y)
    }

    /** operator==: both coordinates agree. */
    predicate Equals(point: Point)
      ensures Equals(point) <==> this == point
    {
      x == point.x && y == point.y
    }

    /** operator!= */
    predicate NotEquals(point: Point)
      ensures NotEquals(point) <==> this != point
    {
      !Equals(point)
    }
  }

  /** Point(int x = 0, int y = 0) */
  function NewPoint(x: int := 0, y: int := 0): Point {
    Point(x, y)
  }

  datatype Point3D = Point3D(x: int, y: int, z: int) {

    predicate IsInt32() {
      Limits.IsInt32(x) && Limits.IsInt32(y) && Limits.IsInt32(z)
    }

    /** The Point base-class part. */
    function Base(): Point {
      Point(x, y)
    }

    /** operator+: x and y through Point::operator+, z directly. */
    function Plus(point: Point3D): (r: Point3D)
      requires Limits.IsInt32(x + point.x) && Limits.IsInt32(y + point.y) && Limits.IsInt32(z + point.z)
      ensures r.IsInt32()
      ensures r == Point3D(x + point.x, y + point.y, z + point.z)
    {
      var p := Point(this.x, this.y).Plus(Point(point.x, point.y));
      Point3D(p.x, p.y, z + point.z)
    }

    /** operator- */
    function Minus(point: Point3D): (r: Point3D)
      requires Limits.IsInt32(x - point.x) && Limits.IsInt32(y - point.y) && Limits.IsInt32(z - point.z)
      ensures r.IsInt32()
      ensures r.x + point.x == x && r.y + point.y == y && r.z + point.z == z
    {
      Point3D(x - point.x, y - point.y, z - point.z)
    }

    /** operator==: all three coordinates agree. */
    predicate Equals(point: Point3D)
      ensures Equals(point) <==> this == point
    {
      x == point.x && y == point.y && z == point.z
    }

    /** operator!= */
    predicate NotEquals(point: Point3D)
      ensures NotEquals(point) <==> this != point
    {
      !Equals(point)
    }
  }

  /** Point3D(int x = 0, int y = 0, int z = 0) */
  function NewPoint3D(x: int := 0, y: int := 0, z: int := 0): Point3D {
    Point3D(x, y, z)
  }

  /** Default construction is the origin. */
  lemma DefaultIsOrigin()
    ensures NewPoint() == Point(0, 0) && NewPoint3D() == Point3D(0, 0, 0)
  {
  }

  /** Subtracting what was added gives back the first operand. */
  lemma PlusMinusRoundTrip(p: Point, q: Point)
    requires p.IsInt32() && q.IsInt32()
    requires Limits.IsInt32(p.x + q.x) && Limits.IsInt32(p.y + q.y)
    ensures p.Plus(q).Minus(q) == p
  {
  }

  lemma PlusMinusRoundTrip3D(p: Point3D, q: Point3D)
    requires p.IsInt32() && q.IsInt32()
    requires Limits.IsInt32(p.x + q.x) && Limits.IsInt32(p.y + q.y) && Limits.IsInt32(p.z + q.z)
    ensures p.Plus(q).Minus(q) == p
  {
  }

  /** The x/y part of a 3-D sum is the 2-D sum of the x/y parts. */
  lemma PlusProjects(p: Point3D, q: Point3D)
    requires Limits.IsInt32(p.x + q.x) && Limits.IsInt32(p.y + q.y) && Limits.IsInt32(p.z + q.z)
    ensures p.Plus(q).Base() == p.Base().Plus(q.Base())
  {
  }

  /** The values main prints: (1,2)+(3,4) = (4,6), (1,2,3)+(4,5,6) = (5,7,9). */
  lemma MainScenario()
    ensures Point(1, 2).Plus(Point(3, 4)) == Point(4, 6)
    ensures Point3D(1, 2, 3).Plus(Point3D(4, 5, 6)) == Point3D(5, 7, 9)
  {
  }
}
