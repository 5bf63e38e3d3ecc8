/**
 * Block positions, the cuboid region a clipboard covers, and the flat
 * index that lays a width x height x length volume out in one array.
 */
module Geometry {

  datatype Vec3 = Vec3(x: int, y: int, z: int)

  const Zero := Vec3(0, 0, 0)
  const One := Vec3(1, 1, 1)

  function Add(a: Vec3, b: Vec3): Vec3
  {
    Vec3(a.x + b.x, a.y + b.y, a.z + b.z)
  }

  function Sub(a: Vec3, b: Vec3): Vec3
  {
    Vec3(a.x - b.x, a.y - b.y, a.z - b.z)
  }

  function Min(a: int, b: int): int { if a <= b then a else b }
  function Max(a: int, b: int): int { if a <= b then b else a }

  /** A cuboid given by two opposite corners, in either order. */
  datatype Region = Cuboid(pos1: Vec3, pos2: Vec3)
  {
    function Minimum(): (m: Vec3)
      ensures m.x <= pos1.x && m.x <= pos2.x && (m.x == pos1.x || m.x == pos2.x)
      ensures m.y <= pos1.y && m.y <= pos2.y && (m.y == pos1.y || m.y == pos2.y)
      ensures m.z <= pos1.z && m.z <= pos2.z && (m.z == pos1.z || m.z == pos2.z)
    {
      Vec3(Min(pos1.x, pos2.x), Min(pos1.y, pos2.y), Min(pos1.z, pos2.z))
    }

    function Maximum(): (m: Vec3)
      ensures m.x >= pos1.x && m.x >= pos2.x && (m.x == pos1.x || m.x == pos2.x)
      ensures m.y >= pos1.y && m.y >= pos2.y && (m.y == pos1.y || m.y == pos2.y)
      ensures m.z >= pos1.z && m.z >= pos2.z && (m.z == pos1.z || m.z == pos2.z)
    {
      Vec3(Max(pos1.x, pos2.x), Max(pos1.y, pos2.y), Max(pos1.z, pos2.z))
    }

    predicate Contains(p: Vec3)
    {
      var lo, hi := Minimum(), Maximum();
      lo.x <= p.x <= hi.x && lo.y <= p.y <= hi.y && lo.z <= p.z <= hi.z
    }
  }

  /** The local cell (x, y, z) lies inside a width x height x length volume. */
  predicate InBox(p: Vec3, width: int, height: int, length: int)
  {
    0 <= p.x < width && 0 <= p.y < height && 0 <= p.z < length
  }

  /** `y * width * length + z * width + x`: x varies fastest, then z, then y. */
  function FlatIndex(width: int, length: int, p: Vec3): int
  {
    p.y * width * length + p.z * width + p.x
  }

  /** Multiplying by a non-negative factor keeps an order. */
  lemma MulMonotone(a: int, b: int, n: int)
    requires a <= b && 0 <= n
    ensures a * n <= b * n
  {
    var d := b - a;
    assert b * n == a * n + d * n;
    assert 0 <= d * n;
  }

  /** Every cell of the volume has its index inside the volume's array. */
  lemma FlatIndexInRange(width: int, height: int, length: int, p: Vec3)
    requires InBox(p, width, height, length)
    ensures 0 <= FlatIndex(width, length, p) < width * height * length
  {
    var a := p.y * length + p.z;
    MulMonotone(p.y, height - 1, length);
    assert (height - 1) * length == height * length - length;
    assert 0 <= p.y * length;
    assert 0 <= a < height * length;
    MulMonotone(a, height * length - 1, width);
    assert (height * length - 1) * width == width * height * length - width;
    assert 0 <= a * width;
    assert FlatIndex(width, length, p) == a * width + p.x;
  }

  /** `a * n + r` with `0 <= r < n` determines `a` and `r`. */
  lemma MixedRadixUnique(a1: int, r1: int, a2: int, r2: int, n: int)
    requires 0 <= r1 < n && 0 <= r2 < n
    requires a1 * n + r1 == a2 * n + r2
    ensures a1 == a2 && r1 == r2
  {
    if a1 < a2 {
      MulMonotone(a1 + 1, a2, n);
    } else if a2 < a1 {
      MulMonotone(a2 + 1, a1, n);
    }
  }

  /** The flat index as two nested mixed-radix digits: (y * length + z) * width + x. */
  lemma FlatIndexNested(width: int, length: int, p: Vec3)
    ensures FlatIndex(width, length, p) == (p.y * length + p.z) * width + p.x
  {
    calc {
      (p.y * length + p.z) * width + p.x;
    ==  // distributivity
      (p.y * length) * width + p.z * width + p.x;
    ==  // associativity and commutativity
      p.y * width * length + p.z * width + p.x;
    }
  }

  /** Distinct cells of the volume have distinct indices. */
  lemma FlatIndexInjective(width: int, height: int, length: int, p: Vec3, q: Vec3)
    requires InBox(p, width, height, length) && InBox(q, width, height, length)
    requires FlatIndex(width, length, p) == FlatIndex(width, length, q)
    ensures p == q
  {
    FlatIndexNested(width, length, p);
    FlatIndexNested(width, length, q);
    MixedRadixUnique(p.y * length + p.z, p.x, q.y * length + q.z, q.x, width);
    MixedRadixUnique(p.y, p.z, q.y, q.z, length);
  }

  /** Every index of the array is the index of exactly one cell. */
  lemma FlatIndexOnto(width: int, height: int, length: int, i: int)
    requires 0 < width && 0 < length
    requires 0 <= i < width * height * length
    ensures InBox(CellOf(width, length, i), width, height, length)
    ensures FlatIndex(width, length, CellOf(width, length, i)) == i
  {
    var p := CellOf(width, length, i);
    var a := i / width;
    assert i == a * width + p.x;
    assert a == p.y * length + p.z;
    assert 0 <= a;
    assert 0 <= p.y;
    if height <= p.y {
      MulMonotone(height, p.y, length);
      MulMonotone(height * length, a, width);
    }
    assert FlatIndex(width, length, p) == (p.y * length + p.z) * width + p.x;
  }

  /** The cell whose flat index is `i`. */
  function CellOf(width: int, length: int, i: int): Vec3
    requires 0 < width && 0 < length
  {
    Vec3(i % width, (i / width) / length, (i / width) % length)
  }
}
