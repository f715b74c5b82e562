/** The UnityEngine numeric helpers the two controllers call, with their documented semantics. */
module UnityMath {

  /** `Mathf.Clamp`: the lower bound is checked first, so an empty range yields `lo`. */
  function Clamp(v: real, lo: real, hi: real): (r: real)
    ensures lo <= hi ==> lo <= r <= hi
    ensures lo <= v <= hi ==> r == v
    ensures v < lo ==> r == lo
    ensures lo <= hi && v > hi ==> r == hi
  {
    if v < lo then lo else if v > hi then hi else v
  }

  /** `x` lies on the closed segment between `a` and `b`, in either order. */
  predicate Between(x: real, a: real, b: real) {
    (a <= x <= b) || (b <= x <= a)
  }

  lemma NonNegativeProduct(x: real, y: real)
    requires 0.0 <= x && 0.0 <= y
    ensures 0.0 <= x * y
  {
  }

  /** Scaling by a factor in [0, 1] moves a number towards 0 without passing it; `p` is the product. */
  lemma ScaleTowardsZero(d: real, c: real, p: real)
    requires 0.0 <= c <= 1.0 && p == d * c
    ensures 0.0 <= d ==> 0.0 <= p <= d
    ensures d <= 0.0 ==> d <= p <= 0.0
  {
    var e := 1.0 - c;
    assert d * c + d * e == d;
    if 0.0 <= d {
      NonNegativeProduct(d, c);
      NonNegativeProduct(d, e);
    } else {
      NonNegativeProduct(-d, c);
      NonNegativeProduct(-d, e);
      assert (-d) * c == -(d * c);
      assert (-d) * e == -(d * e);
    }
  }

  /** An interpolation with a parameter in [0, 1] stays on the segment between its ends. */
  lemma InterpolationBetween(a: real, b: real, c: real)
    requires 0.0 <= c <= 1.0
    ensures Between(a + (b - a) * c, a, b)
  {
    ScaleTowardsZero(b - a, c, (b - a) * c);
  }

  /** `Mathf.Lerp`: the parameter is clamped to [0, 1] before interpolating. */
  function Lerp(a: real, b: real, t: real): (r: real)
    ensures Between(r, a, b)
    ensures t <= 0.0 ==> r == a
    ensures t >= 1.0 ==> r == b
  {
    var c := Clamp(t, 0.0, 1.0);
    InterpolationBetween(a, b, c);
    a + (b - a) * c
  }

  datatype Vec3 = Vec3(x: real, y: real, z: real)

  /** `Vector3.Lerp`: componentwise `Mathf.Lerp` with one clamped parameter. */
  function LerpVec(a: Vec3, b: Vec3, t: real): (r: Vec3)
    ensures Between(r.x, a.x, b.x) && Between(r.y, a.y, b.y) && Between(r.z, a.z, b.z)
    ensures t <= 0.0 ==> r == a
    ensures t >= 1.0 ==> r == b
  {
    Vec3(Lerp(a.x, b.x, t), Lerp(a.y, b.y, t), Lerp(a.z, b.z, t))
  }
}
