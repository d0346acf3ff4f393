/** Products and quotients of naturals. */
module Arithmetic {
  function Min(a: nat, b: nat): nat { if b < a then b else a }

  function Max(a: nat, b: nat): nat { if a < b then b else a }

  lemma MulAtMost(a: nat, b: nat, c: nat)
    requires a <= b
    ensures a * c <= b * c && b * c == c * b
  {
  }

  /** A digit below `m`, and one of weight `m` below `d`. */
  lemma DigitsBelow(a: nat, m: nat, c: nat, d: nat)
    requires a < m && c < d
    ensures a + c * m < d * m && d * m == m * d
  {
    MulAtMost(c + 1, d, m);
    assert (c + 1) * m == c * m + m;
  }

  lemma HalfBelow(x: nat, y: nat)
    ensures x / 2 < y <==> x < 2 * y
    ensures x % 2 == 0 && x < 2 * y ==> x + 1 < 2 * y
  {
  }

  lemma DivUnique(q: nat, b: nat, r: nat)
    requires r < b
    ensures (q * b + r) / b == q && (q * b + r) % b == r
  {
    var x := q * b + r;
    var y, s := x / b, x % b;
    assert x == y * b + s;
    if y > q {
      MulAtMost(q + 1, y, b);
    } else if y < q {
      MulAtMost(y + 1, q, b);
    }
  }

  lemma QuotientAtMost(a: nat, b: nat, q: nat)
    requires b > 0
    ensures a / b <= q <==> a < (q + 1) * b
    ensures (q + 1) * b == q * b + b
  {
    var d, r := a / b, a % b;
    assert a == d * b + r;
    if d <= q {
      MulAtMost(d + 1, q + 1, b);
      assert (d + 1) * b == d * b + b;
    } else {
      MulAtMost(q + 1, d, b);
    }
  }

  lemma QuotientBelow(a: nat, b: nat, q: nat)
    requires b > 0 && a < q * b
    ensures a / b < q
  {
    if a / b >= q {
      MulAtMost(q, a / b, b);
    }
  }
}
