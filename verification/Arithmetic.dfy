/**
  Facts about products, quotients and remainders of natural numbers that the epoch rules, the
  compact difficulty and the since locks share.
 */
module Arithmetic {
  function Times(a: nat, b: nat): nat {
    a * b
  }

  function Quotient(a: nat, b: nat): nat
    requires b > 0
  {
    a / b
  }

  function Remainder(a: nat, b: nat): nat
    requires b > 0
  {
    a % b
  }

  /** Halved k times. */
  function ShiftRight(n: nat, k: nat): nat {
    if k == 0 then n else ShiftRight(n, k - 1) / 2
  }

  function Min(a: nat, b: nat): nat {
    if a < b then a else b
  }

  function Max(a: nat, b: nat): nat {
    if a < b then b else a
  }

  function Pow2(k: nat): (r: nat)
    ensures r > 0
  {
    if k == 0 then 1 else 2 * Pow2(k - 1)
  }

  lemma {:induction false} Pow2Mono(j: nat, k: nat)
    requires j <= k
    ensures Pow2(j) <= Pow2(k)
  {
    if j < k { Pow2Mono(j, k - 1); }
  }

  lemma {:induction false} Pow2Add(j: nat, k: nat)
    ensures Pow2(j + k) == Pow2(j) * Pow2(k)
  {
    if j > 0 { Pow2Add(j - 1, k); }
  }

  lemma {:induction false} Pow2Square(k: nat, x: nat)
    requires Pow2(k) == x
    ensures Pow2(2 * k) == x * x
  {
    Pow2Add(k, k);
  }

  /** Halving k times is dividing by a power of two. */
  lemma {:induction false} ShiftRightIs(n: nat, k: nat)
    ensures ShiftRight(n, k) == n / Pow2(k)
  {
    if k > 0 {
      ShiftRightIs(n, k - 1);
      HalvedAgain(n, Pow2(k - 1));
    }
  }

  lemma {:induction false} HalvedAgain(n: nat, p: nat)
    requires p > 0
    ensures n / p / 2 == n / (2 * p)
  {
    var q := n / p;
    DivBounds(n, p);
    MulMono(2 * (q / 2), q, p);
    MulMono(q + 1, 2 * (q / 2 + 1), p);
    Assoc(q / 2, 2, p);
    Assoc(q / 2 + 1, 2, p);
    DivUnique(n, 2 * p, q / 2);
  }

  lemma {:induction false} MulPositive(a: nat, b: nat)
    requires a > 0 && b > 0
    ensures a * b > 0
  {
  }

  lemma {:induction false} MulMono(a: nat, b: nat, k: nat)
    requires a <= b
    ensures a * k <= b * k
  {
  }

  lemma {:induction false} MulStrict(a: nat, b: nat, k: nat)
    requires a < b && k > 0
    ensures a * k < b * k
  {
  }

  lemma {:induction false} Assoc(x: nat, y: nat, z: nat)
    ensures x * (y * z) == (x * y) * z
  {
  }

  lemma {:induction false} Distribute(m: nat, x: nat)
    ensures x + m * x == (m + 1) * x
  {
  }

  lemma {:induction false} DivBounds(a: nat, b: nat)
    requires b > 0
    ensures (a / b) * b <= a < (a / b + 1) * b
  {
    assert a == (a / b) * b + a % b;
  }

  lemma {:induction false} DivLess(a: nat, d: nat, m: nat)
    requires d > 0
    ensures a / d <= m <==> a < Times(d, m + 1)
  {
    DivBounds(a, d);
    if a / d <= m { MulMono(a / d + 1, m + 1, d); } else { MulMono(m + 1, a / d, d); }
  }

  /** The rationals n/m and a/b are one number, so that comparing with either is the same. */
  lemma {:induction false} SameRatio(n: nat, m: nat, a: nat, b: nat, x: nat, y: nat)
    requires n * b == a * m && b > 0 && m > 0
    ensures x * n <= y * m <==> x * a <= y * b
    ensures x * n < y * m <==> x * a < y * b
  {
    Assoc(x, n, b);
    Assoc(x, a, m);
    Swap(y, m, b);
    SameOrder(x * n, y * m, b);
    SameOrder(x * a, y * b, m);
  }

  lemma {:induction false} SameOrder(a: nat, b: nat, k: nat)
    requires k > 0
    ensures a <= b <==> a * k <= b * k
    ensures a < b <==> a * k < b * k
  {
    if a <= b { MulMono(a, b, k); } else { MulStrict(b, a, k); }
    if a < b { MulStrict(a, b, k); } else { MulMono(b, a, k); }
  }

  lemma {:induction false} DivUnique(a: nat, b: nat, q: nat)
    requires b > 0 && q * b <= a < (q + 1) * b
    ensures a / b == q
  {
    assert a == (a / b) * b + a % b;
    if a / b < q { MulMono(a / b + 1, q, b); }
  }

  /** Dividing by a smaller number gives no less. */
  lemma {:induction false} DivMono(a: nat, b: nat, c: nat)
    requires 0 < b <= c
    ensures a / c <= a / b
  {
    DivBounds(a, c);
    DivBounds(a, b);
    if a / b < a / c {
      MulMono(a / b + 1, a / c, b);
      MulMono(b, c, a / c);
    }
  }

  lemma {:induction false} DivAtLeast(a: nat, b: nat, q: nat)
    requires b > 0 && q * b <= a
    ensures a / b >= q
  {
    DivBounds(a, b);
    if a / b < q { MulMono(a / b + 1, q, b); }
  }

  lemma {:induction false} Swap(x: nat, y: nat, z: nat)
    ensures (x * y) * z == (x * z) * y
  {
  }

  lemma {:induction false} DivAtMost(a: nat, b: nat, top: nat, u: nat)
    requires b > 0 && u <= b && a <= top * u
    ensures a / b <= top
  {
    MulMono(u, b, top);
    DivBounds(a, b);
    if a / b > top { MulMono(top + 1, a / b, b); }
  }

  lemma {:induction false} SmallDiv(k: nat)
    requires k > 0
    ensures 0 / k == 0
  {
  }

  lemma {:induction false} SmallMod(a: nat, b: nat)
    requires a < b
    ensures a % b == a
  {
  }

  lemma {:induction false} CancelBounds(a: nat, b: nat, k: nat, q: nat)
    requires b > 0 && k > 0 && q == a / b
    ensures q * (b * k) <= a * k < (q + 1) * (b * k)
  {
    DivBounds(a, b);
    Assoc(q, b, k);
    Assoc(q + 1, b, k);
    MulMono(q * b, a, k);
    MulStrict(a, (q + 1) * b, k);
  }

  lemma {:induction false} Cancel(a: nat, b: nat, k: nat)
    requires b > 0 && k > 0
    ensures b * k > 0 && (a * k) / (b * k) == a / b
  {
    MulPositive(b, k);
    var q := a / b;
    CancelBounds(a, b, k, q);
    DivUnique(a * k, b * k, q);
  }

  lemma {:induction false} SameQuotient(n: nat, k: nat)
    requires k > 0 && (n + 1) % k != 0
    ensures (n + 1) / k == n / k
  {
    var q := (n + 1) / k;
    assert n + 1 == q * k + (n + 1) % k;
    DivUnique(n, k, q);
  }

  lemma {:induction false} NextRemainder(n: nat, i: nat)
    requires i > 0 && (n + 1) % i != 0
    ensures (n + 1) % i == n % i + 1
  {
    SameQuotient(n, i);
    assert n == (n / i) * i + n % i;
    assert n + 1 == ((n + 1) / i) * i + (n + 1) % i;
  }

  lemma {:induction false} NextQuotient(n: nat, i: nat)
    requires i > 0 && (n + 1) % i == 0
    ensures (n + 1) / i == n / i + 1 && n % i == i - 1
  {
    var q := (n + 1) / i;
    assert n + 1 == q * i;
    assert q > 0;
    assert (q - 1) * i == q * i - i;
    DivUnique(n, i, q - 1);
    assert n == (n / i) * i + n % i;
  }

  lemma {:induction false} HalfTwice(i: nat, x: nat)
    ensures x + 2 * i * (x / 2) <= (i + 1) * x
  {
    MulMono(2 * (x / 2), x, i);
    assert 2 * i * (x / 2) == (2 * (x / 2)) * i;
  }

  lemma {:induction false} Scale(w: nat, v: nat, k: nat, n: nat)
    requires v < w
    ensures (w * k * n) * (w - v) == (w * n) * (w * k - v * k)
  {
    var x := w - v;
    assert w * k - v * k == x * k;
    assert (w * k * n) * x == (w * n) * (x * k);
  }

  /** From x/k >= z/w and y/l >= x/k follows y/l >= z/w. */
  lemma {:induction false} Chain(x: nat, k: nat, y: nat, l: nat, w: nat, z: nat)
    requires k > 0 && l > 0 && x * l <= y * k && x * w >= z * k
    ensures y * w >= z * l
  {
    MulMono(z * k, x * w, l);
    MulMono(x * l, y * k, w);
    assert (z * k) * l == (z * l) * k && (x * w) * l == (x * l) * w && (y * k) * w == (y * w) * k;
    if y * w < z * l { MulStrict(y * w, z * l, k); }
  }
}
