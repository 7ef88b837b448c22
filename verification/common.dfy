/** Types shared by every part of the editor model: optional values, results
    with an error, and three-component coordinates. Coordinates are exact
    reals; the editor stores them as 32-bit floats. */
module Common {

  /** A value that may be absent: a null or expired shared pointer. */
  datatype Option<+T> = None | Some(value: T)

  /** A computation that either produces a value or fails with an error. */
  datatype Result<+R, +E> = Success(value: R) | Failure(error: E)

  /** A point or direction in model space. */
  datatype Vec3 = Vec3(x: real, y: real, z: real) {

    function Plus(o: Vec3): Vec3 {
      Vec3(x + o.x, y + o.y, z + o.z)
    }

    function Minus(o: Vec3): Vec3 {
      Vec3(x - o.x, y - o.y, z - o.z)
    }

    function Times(k: real): Vec3 {
      Vec3(k * x, k * y, k * z)
    }

    /** Coordinate k (0 = x, 1 = y, 2 = z). */
    function Coord(k: nat): real
      requires k < 3
    {
      if k == 0 then x else if k == 1 then y else z
    }
  }

  /** A curve's or surface's reference to a control point, by id; `live` is
      false once the point has expired (it was deleted elsewhere). */
  datatype PointRef = PointRef(id: nat, live: bool, position: Vec3)

  /** 2^64: container sizes are 64-bit unsigned, so `size() - 1` wraps modulo this. */
  const SizeModulus: int := 0x1_0000_0000_0000_0000

  /** 2^32: the modulus of 32-bit unsigned arithmetic. */
  const WordModulus: int := 0x1_0000_0000

  /** C++ integer division, which truncates toward zero. */
  function TruncDiv(a: int, b: int): (q: int)
    requires b > 0
  {
    if a >= 0 then a / b else -((-a) / b)
  }

  const Origin: Vec3 := Vec3(0.0, 0.0, 0.0)

  /** The midpoint of two points. */
  function Mid(a: Vec3, b: Vec3): Vec3 {
    a.Plus(b).Times(0.5)
  }

  /** Lays points out as x, y, z triples, the layout of every vertex buffer. */
  function Flatten(ps: seq<Vec3>): (r: seq<real>)
    ensures |r| == 3 * |ps|
    ensures forall i, k :: 0 <= i < |ps| && 0 <= k < 3 ==> r[3 * i + k] == ps[i].Coord(k)
  {
    if |ps| == 0 then []
    else
      var rest := Flatten(ps[1..]);
      [ps[0].x, ps[0].y, ps[0].z] + rest
  }
}
