/** Stereo samples as pairs of reals, and linear interpolation between them. */
module Audio {

  datatype Frame = Frame(left: real, right: real)

  const SILENT := Frame(0.0, 0.0)

  // The frame a fraction t of the way from one frame to another.
  function Toward(from: Frame, to: Frame, t: real): Frame {
    Frame(from.left + (to.left - from.left) * t, from.right + (to.right - from.right) * t)
  }

  // The mean of two frames with weights 1 - a and a.
  function Blend(from: Frame, to: Frame, a: real): Frame {
    Frame((1.0 - a) * from.left + a * to.left, (1.0 - a) * from.right + a * to.right)
  }

  lemma Weighted(l: real, t: real, a: real)
    ensures l + (t - l) * a == (1.0 - a) * l + a * t
  {
  }

  lemma TowardIsBlend(from: Frame, to: Frame, a: real)
    ensures Toward(from, to, a) == Blend(from, to, a)
  {
    Weighted(from.left, to.left, a);
    Weighted(from.right, to.right, a);
  }

  lemma RealOrder(x: real, y: real, d: real)
    requires d > 0.0
    ensures x * d < y * d <==> x < y
    ensures x * d <= y * d <==> x <= y
  {
    assert x * d - y * d == (x - y) * d;
  }

  predicate InRange(x: real, a: real, b: real) {
    a <= x <= b || b <= x <= a
  }

  // An interpolated frame lies between its two neighbours.
  lemma TowardBetween(a: Frame, b: Frame, t: real)
    requires 0.0 <= t <= 1.0
    ensures InRange(Toward(a, b, t).left, a.left, b.left) && InRange(Toward(a, b, t).right, a.right, b.right)
  {
    Interpolated(a.left, b.left, t);
    Interpolated(a.right, b.right, t);
  }

  lemma Interpolated(a: real, b: real, t: real)
    requires 0.0 <= t <= 1.0
    ensures InRange(a + (b - a) * t, a, b)
  {
    var m := Portion(b - a, t);
  }

  lemma Portion(d: real, t: real) returns (m: real)
    requires 0.0 <= t <= 1.0
    ensures m == d * t
    ensures 0.0 <= d ==> 0.0 <= m <= d
    ensures d <= 0.0 ==> d <= m <= 0.0
  {
    m := d * t;
    if d > 0.0 {
      RealOrder(0.0, t, d);
      RealOrder(t, 1.0, d);
    } else if d < 0.0 {
      var e := -d;
      RealOrder(0.0, t, e);
      RealOrder(t, 1.0, e);
      assert t * e == -m;
    }
  }
}
