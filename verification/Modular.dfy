/** Facts about remainders that the ring buffers need. */
module Modular {

  lemma MultipleSize(c: int, d: int)
    requires c > 0
    ensures d >= 1 ==> c * d >= c
    ensures d <= -1 ==> c * d <= -c
  {
    assert c * d == c + c * (d - 1) == -c + c * (d + 1);
  }

  lemma SmallMultiple(c: int, d: int)
    requires c > 0 && -c < c * d < c
    ensures d == 0
  {
    MultipleSize(c, d);
  }

  lemma Division(x: int, c: int, q: int, r: int)
    requires c > 0 && x == c * q + r && 0 <= r < c
    ensures x / c == q && x % c == r
  {
    var e, t := x / c, x % c;
    assert x == c * e + t;
    assert c * (q - e) == t - r by {
      assert c * (q - e) == c * q - c * e;
    }
    SmallMultiple(c, q - e);
  }

  lemma AddMultiple(x: int, c: int, k: int)
    requires c > 0
    ensures (x + c * k) % c == x % c
  {
    var q := x / c;
    assert x + c * k == c * (q + k) + x % c by {
      assert c * (q + k) == c * q + c * k;
    }
    Division(x + c * k, c, q + k, x % c);
  }

  // Two positions less than a capacity apart use different cells.
  lemma DistinctCells(a: int, b: int, c: int)
    requires a < b < a + c
    ensures a % c != b % c
  {
    if a % c == b % c {
      var q, p := b / c, a / c;
      assert a == c * p + a % c && b == c * q + b % c;
      assert c * (q - p) == c * q - c * p;
      SmallMultiple(c, q - p);
    }
  }

  // Going d cells back, or one forward, from the cell of position p.
  lemma CellBack(p: int, size: int, d: int)
    requires 0 <= d < size
    ensures (p % size + size - d % size) % size == (p - d) % size
  {
    var q := p / size;
    Division(d, size, 0, d);
    assert p % size + size - d == (p - d) + size * (1 - q) by {
      assert size * (1 - q) == size - size * q;
    }
    AddMultiple(p - d, size, 1 - q);
  }

  lemma CellNext(p: int, size: int)
    requires size > 0
    ensures (p % size + 1) % size == (p + 1) % size
  {
    var q := p / size;
    assert p % size + 1 == (p + 1) + size * (-q) by {
      assert size * (-q) == -(size * q);
    }
    AddMultiple(p + 1, size, -q);
  }
}
