/** Rounding of real numbers to floats: round half to even with 53 significant bits and gradual
    underflow (binary64 of IEEE 754), without an upper limit on the exponent. */
module Rounding {

  function Pow2(k: nat): (r: int)
    ensures 1 <= r
  {
    if k == 0 then 1 else 2 * Pow2(k - 1)
  }

  lemma {:induction false} PowSum(a: nat, b: nat)
    ensures Pow2(a + b) == Pow2(a) * Pow2(b)
    decreases b
  {
    if b > 0 {
      PowSum(a, b - 1);
      assert Pow2(a + b) == 2 * Pow2(a + (b - 1));
      Regroup(Pow2(a), Pow2(b - 1));
    }
  }

  lemma Regroup(x: int, y: int)
    ensures 2 * (x * y) == x * (2 * y)
  {
  }

  lemma {:induction false} PowMonotone(a: nat, b: nat)
    requires a <= b
    ensures Pow2(a) <= Pow2(b)
    decreases b
  {
    if a < b {
      PowMonotone(a, b - 1);
    }
  }

  // ---------------------------------------------------------------- rounding in units

  const LOW: int := 0x10_0000_0000_0000
  const HIGH: int := 0x20_0000_0000_0000

  /** The nearest whole number, the even one of two equally near. */
  function HalfEven(x: real): int {
    var f := x.Floor;
    var d := x - f as real;
    if d < 0.5 || (d == 0.5 && f % 2 == 0) then f else f + 1
  }

  lemma HalfEvenNear(x: real)
    ensures -0.5 <= HalfEven(x) as real - x <= 0.5
    ensures x == x.Floor as real ==> HalfEven(x) as real == x
  {
  }

  lemma HalfEvenMonotone(x: real, y: real)
    requires x <= y
    ensures HalfEven(x) <= HalfEven(y)
  {
    if x.Floor < y.Floor {
      assert HalfEven(x) <= x.Floor + 1;
    }
  }

  /** The nearest number of at most 53 significant bits, in units of the smallest one. */
  function Units(x: real): (r: real)
    requires 0.0 <= x
    ensures 0.0 <= r
    decreases x.Floor
  {
    if x < HIGH as real then HalfEven(x) as real else 2.0 * Units(x / 2.0)
  }

  lemma {:induction false} UnitsAbove(x: real)
    requires 0.0 <= x
    ensures LOW as real <= x ==> LOW as real <= Units(x)
    ensures HIGH as real <= x ==> HIGH as real <= Units(x)
    ensures x <= HIGH as real ==> Units(x) <= HIGH as real
    decreases x.Floor
  {
    if x < HIGH as real {
      HalfEvenNear(x);
      if LOW as real <= x {
        HalfEvenNear(LOW as real);
        HalfEvenMonotone(LOW as real, x);
      }
      HalfEvenNear(HIGH as real);
      HalfEvenMonotone(x, HIGH as real);
    } else {
      UnitsAbove(x / 2.0);
      if x == HIGH as real {
        HalfEvenNear(x / 2.0);
      }
    }
  }

  lemma {:induction false} UnitsMonotone(x: real, y: real)
    requires 0.0 <= x <= y
    ensures Units(x) <= Units(y)
    decreases y.Floor
  {
    hide HalfEven;
    if y < HIGH as real {
      HalfEvenMonotone(x, y);
    } else if x < HIGH as real {
      UnitsAbove(x);
      UnitsAbove(y);
    } else {
      UnitsMonotone(x / 2.0, y / 2.0);
    }
  }

  lemma {:induction false} UnitsIdempotent(x: real)
    requires 0.0 <= x
    ensures Units(Units(x)) == Units(x)
    decreases x.Floor
  {
    hide HalfEven;
    UnitsAbove(x);
    if x < HIGH as real {
      HalfEvenNear(Units(x));
      HalfEvenNear(Units(x) / 2.0);
    } else {
      UnitsIdempotent(x / 2.0);
    }
  }

  function Enlarged(x: real, u: int): real {
    x * u as real
  }

  /** `x` doubled `k` times. */
  function Shifted(x: real, k: nat): real {
    if k == 0 then x else 2.0 * Shifted(x, k - 1)
  }

  lemma {:induction false} ShiftedIsProduct(x: real, k: nat)
    ensures Shifted(x, k) == Enlarged(x, Pow2(k))
    decreases k
  {
    if k > 0 {
      ShiftedIsProduct(x, k - 1);
      Doubled(x, Pow2(k - 1));
    }
  }

  lemma Doubled(x: real, p: int)
    ensures x * (2 * p) as real == 2.0 * (x * p as real)
  {
    assert (2 * p) as real == 2.0 * p as real;
  }

  /** Doubling commutes with rounding, once nothing is lost below the last bit. */
  lemma {:induction false} UnitsShifted(x: real, k: nat)
    requires LOW as real <= x
    ensures x <= Shifted(x, k) && Units(Shifted(x, k)) == Shifted(Units(x), k)
    decreases k
  {
    hide HalfEven;
    if k > 0 {
      UnitsShifted(x, k - 1);
      assert Units(2.0 * Shifted(x, k - 1)) == 2.0 * Units(Shifted(x, k - 1));
    }
  }

  lemma UnitsScaled(x: real, k: nat)
    requires LOW as real <= x
    ensures x <= Enlarged(x, Pow2(k)) && Units(Enlarged(x, Pow2(k))) == Enlarged(Units(x), Pow2(k))
  {
    hide HalfEven, Units, Shifted, Pow2, Enlarged;
    UnitsShifted(x, k);
    ShiftedIsProduct(x, k);
    ShiftedIsProduct(Units(x), k);
  }

  lemma {:induction false} RepresentableShifted(x: real, k: nat)
    requires 0.0 <= x && Units(x) == x
    ensures 0.0 <= Shifted(x, k) && Units(Shifted(x, k)) == Shifted(x, k)
    decreases k
  {
    hide HalfEven, Units;
    if k > 0 {
      RepresentableShifted(x, k - 1);
      RepresentableDoubled(Shifted(x, k - 1));
    }
  }

  /** A representable number stays representable when it is doubled any number of times. */
  lemma RepresentableScaled(x: real, k: nat)
    requires 0.0 <= x && Units(x) == x
    ensures 0.0 <= Enlarged(x, Pow2(k)) && Units(Enlarged(x, Pow2(k))) == Enlarged(x, Pow2(k))
  {
    hide HalfEven, Units, Shifted, Pow2, Enlarged;
    RepresentableShifted(x, k);
    ShiftedIsProduct(x, k);
  }

  lemma RepresentableDoubled(x: real)
    requires 0.0 <= x && Units(x) == x
    ensures Units(2.0 * x) == 2.0 * x
  {
    hide HalfEven;
    if x < LOW as real {
      EvenWhole(x, HalfEven(x));
      UnitsBelow(2.0 * x);
    } else {
      assert 2.0 * x / 2.0 == x;
    }
  }

  lemma EvenWhole(x: real, m: int)
    requires x == m as real
    ensures HalfEven(2.0 * x) as real == 2.0 * x
  {
    assert (2.0 * x).Floor == 2 * m;
  }

  /** What rounds to a 53-bit whole number is within half a unit of it. */
  lemma UnitsNear(q: real, v: int)
    requires 0.0 <= q && LOW <= v < HIGH && Units(q) == v as real
    ensures -0.5 <= q - v as real <= 0.5
  {
    UnitsAbove(q);
    HalfEvenNear(q);
  }

  lemma UnitsBelow(y: real)
    requires 0.0 <= y < HIGH as real
    ensures Units(y) == HalfEven(y) as real
  {
  }

  lemma UnitsInBinade(y: real, k: nat)
    requires LOW as real <= y < HIGH as real
    ensures 0.0 <= Enlarged(y, Pow2(k))
    ensures Units(Enlarged(y, Pow2(k))) == Enlarged(HalfEven(y) as real, Pow2(k))
  {
    hide HalfEven, Units, Enlarged;
    UnitsScaled(y, k);
    UnitsBelow(y);
  }

  function Reduced(x: real, u: int): real
    requires 1 <= u
  {
    x / u as real
  }

  lemma Restored(x: real, u: int)
    requires 1 <= u
    ensures Enlarged(Reduced(x, u), u) == x
  {
  }

  // ---------------------------------------------------------------- which multiples divide back

  lemma {:induction false} Exponent(n: int) returns (p: nat)
    requires 1 <= n
    ensures Pow2(p) <= n < Pow2(p + 1)
    decreases n
  {
    if n == 1 {
      p := 0;
    } else {
      var q := Exponent(n / 2);
      p := q + 1;
    }
  }

  lemma {:induction false} OddPart(n: int) returns (a: nat, m: int)
    requires 1 <= n
    ensures n == Pow2(a) * m && m % 2 == 1 && 1 <= m <= n
    decreases n
  {
    if n % 2 == 1 {
      a, m := 0, n;
    } else {
      a, m := OddPart(n / 2);
      Regroup(m, Pow2(a));
      a := a + 1;
    }
  }

  lemma Whole()
    ensures Pow2(53) == HIGH && Pow2(52) == LOW && Pow2(51) * 4 == HIGH
  {
    assert Pow2(13) == 8192;
    PowSum(13, 13);
    PowSum(26, 26);
    assert Pow2(52) == LOW;
  }

  predicate IsProduct(x: int, n: int, v: int) {
    x == n * v
  }

  lemma RealProduct(n: int, v: int)
    ensures (n * v) as real == n as real * v as real
  {
  }

  /** A rounded product that lies further from the product than half of the factor does not divide
      back to the sample. */
  lemma FarProduct(n: int, v: int, x: int, product: real)
    requires 1 <= n && LOW < v < HIGH && IsProduct(x, n, v) && 0.0 <= product
    requires var d := product - x as real; n as real / 2.0 < d <= n as real || -(n as real) <= d < -(n as real) / 2.0
    ensures LOW as real <= Reduced(product, n) && Units(Reduced(product, n)) != v as real
  {
    hide Units;
    var q := Reduced(product, n);
    RealProduct(n, v);
    DivideGap(product, n as real, v as real);
    if Units(q) == v as real {
      UnitsNear(q, v);
    }
  }

  lemma DivideGap(product: real, n: real, v: real)
    requires 1.0 <= n
    requires var d := product - n * v; n / 2.0 < d <= n || -n <= d < -n / 2.0
    ensures var g := product / n - v; 0.5 < g <= 1.0 || -1.0 <= g < -0.5
  {
    var q := product / n;
    assert q * n == product;
    GapOf(n, q - v, product - n * v);
  }

  lemma GapOf(n: real, g: real, d: real)
    requires 1.0 <= n && d == n * g
    requires n / 2.0 < d <= n || -n <= d < -n / 2.0
    ensures 0.5 < g <= 1.0 || -1.0 <= g < -0.5
  {
    if 0.0 < d {
      Cancel(n, 0.5, g);
      CancelAtMost(n, g, 1.0);
    } else {
      Cancel(n, g, -0.5);
      CancelAtMost(n, -1.0, g);
    }
  }

  lemma Cancel(n: real, x: real, y: real)
    requires 0.0 < n && n * x < n * y
    ensures x < y
  {
  }

  lemma CancelAtMost(n: real, x: real, y: real)
    requires 0.0 < n && n * x <= n * y
    ensures x <= y
  {
  }

  lemma PartOf(n: real, g: real)
    requires 0.0 < n && g < 2.0 * n && n < g
    ensures 0.5 < n / g < 1.0
  {
    var q := n / g;
    assert g * q == n;
    assert g * 0.5 < n;
    Cancel(g, 0.5, q);
    Cancel(g, q, 1.0);
  }

  lemma HalfEvenBelow(m: int, part: real)
    requires 0.5 < part < 1.0
    ensures HalfEven(m as real - part) == m - 1
  {
    assert (m as real - part).Floor == m - 1;
  }

  lemma HalfEvenTie(m: int)
    requires m % 2 == 1
    ensures var h := HalfEven(m as real / 2.0) as real - m as real / 2.0; h == 0.5 || h == -0.5
  {
    assert (m as real / 2.0).Floor == m / 2;
  }

  lemma EnlargedSum(a: real, b: real, g: int)
    ensures Enlarged(a + b, g) == Enlarged(a, g) + Enlarged(b, g)
    ensures Enlarged(a - b, g) == Enlarged(a, g) - Enlarged(b, g)
  {
  }

  lemma EnlargedInt(a: int, g: int)
    ensures Enlarged(a as real, g) == (a * g) as real
  {
    RealProduct(a, g);
  }

  lemma EnlargedHalf(a: int, h: int)
    ensures Enlarged(a as real / 2.0, 2 * h) == (a * h) as real
  {
    RealProduct(a, h);
    assert (2 * h) as real == 2.0 * h as real;
  }

  lemma Times(a: int, b: int, c: int)
    requires a <= b && 0 <= c
    ensures a * c <= b * c
  {
  }

  lemma Regrouped(n: int, c: int, g: int)
    requires g * c == HIGH
    ensures n * c * g == n * HIGH
  {
    assert n * (c * g) == n * c * g;
  }

  lemma RoundedAt(y: real, k: nat, g: int)
    requires g == Pow2(k) && LOW as real <= y < HIGH as real
    ensures 0.0 <= Enlarged(y, g) && Units(Enlarged(y, g)) == Enlarged(HalfEven(y) as real, g)
  {
    hide Units, HalfEven, Pow2, Enlarged;
    UnitsInBinade(y, k);
  }

  lemma TopBounds(n: int, c: int, g: int)
    requires 1 <= c && 1 <= g && g * c == HIGH && n < g < 2 * n
    ensures LOW + 1 <= n * c < HIGH
  {
    Times(n, g - 1, c);
    Times(g + 1, 2 * n, c);
  }

  /** The product by the largest sample below one is rounded down to its next multiple of g. */
  lemma RoundedTop(n: int, k: nat, w: int, g: int)
    requires 1 <= g == Pow2(k) && n < g < 2 * n && LOW + 1 <= w < HIGH && w * g == n * HIGH
    ensures Units((n * HIGH - n) as real) == (n * HIGH - g) as real
  {
    hide Units, HalfEven, Pow2, Enlarged;
    var part := Reduced(n as real, g);
    PartOf(n as real, g as real);
    var y := w as real - part;
    EnlargedInt(w, g);
    EnlargedSum(w as real, part, g);
    Restored(n as real, g);
    HalfEvenBelow(w, part);
    EnlargedInt(w - 1, g);
    Less(w, g);
    RoundedAt(y, k, g);
  }

  lemma Less(w: int, g: int)
    ensures (w - 1) * g == w * g - g
  {
  }

  /** Just above a power of two: the largest sample below one is lost. */
  lemma LostAtTop(n: int, p: nat)
    requires Pow2(p) < n < Pow2(p + 1) && p <= 51 && 3 * n < 2 * Pow2(p + 1)
    ensures
      var product := Units((n * (HIGH - 1)) as real);
      LOW as real <= Reduced(product, n) && Units(Reduced(product, n)) != (HIGH - 1) as real
  {
    var g, c := Pow2(p + 1), Pow2(52 - p);
    assert g == 2 * Pow2(p);
    hide Units, Pow2, Reduced;
    Whole();
    PowSum(p + 1, 52 - p);
    TopBounds(n, c, g);
    Regrouped(n, c, g);
    RoundedTop(n, p + 1, n * c, g);
    FarProduct(n, HIGH - 1, n * (HIGH - 1), (n * HIGH - g) as real);
  }

  lemma TieBounds(n: int, c: int, g: int)
    requires 2 <= c && g * c == HIGH && 0 < n < g && 2 * g <= 3 * n
    ensures HIGH <= 2 * (n * c) - n && n * c < HIGH
  {
    Times(n, g - 1, c);
    Times(2 * g, 3 * n, c);
    Times(2, c, n);
  }

  lemma HalfEvenAt(y: real, m: int, h: int)
    requires m % 2 == 1 && y == m as real / 2.0
    ensures var d := Enlarged(HalfEven(y) as real, 2 * h) - Enlarged(y, 2 * h); d == h as real || d == -(h as real)
  {
    HalfEvenTie(m);
    hide HalfEven, Enlarged;
    EnlargedHalf(1, h);
    EnlargedSum(y, 0.5, 2 * h);
    assert 1 as real / 2.0 == 0.5;
  }

  lemma TieEnlarged(n: int, w: int, h: int, x: int)
    requires w * (2 * h) == n * HIGH && x == n * HIGH - n * h
    ensures Enlarged((2 * w - n) as real / 2.0, 2 * h) == x as real
  {
    hide Enlarged;
    assert (2 * w - n) as real / 2.0 == w as real - n as real / 2.0;
    EnlargedInt(w, 2 * h);
    EnlargedHalf(n, h);
    EnlargedSum(w as real, n as real / 2.0, 2 * h);
  }

  lemma RoundedTie(k: nat, m: int, h: int, x: int)
    requires 1 <= h && 2 * h == Pow2(k) && m % 2 == 1 && HIGH <= m < 2 * HIGH
    requires Enlarged(m as real / 2.0, 2 * h) == x as real
    ensures 0 <= x
    ensures var d := Units(x as real) - x as real; d == h as real || d == -(h as real)
  {
    hide Units, HalfEven, Pow2, Enlarged;
    var y := m as real / 2.0;
    HalfEvenAt(y, m, h);
    RoundedAt(y, k, 2 * h);
  }

  lemma TieProduct(n: int, c: int, h: int, x: int) returns (w: int)
    requires 2 <= c && 1 <= h && IsProduct(HIGH, 2 * h, c) && h < n < 2 * h && 4 * h <= 3 * n
    requires IsProduct(x, n, HIGH - h)
    ensures HIGH <= 2 * w - n && w < HIGH && w * (2 * h) == n * HIGH && x == n * HIGH - n * h
  {
    TieBounds(n, c, 2 * h);
    Regrouped(n, c, 2 * h);
    w := n * c;
  }

  lemma TieRounded(n: int, k: nat, c: int, h: int, x: int)
    requires 2 <= c && 1 <= h && IsProduct(HIGH, 2 * h, c) && 2 * h == Pow2(k)
    requires h < n < 2 * h && 4 * h <= 3 * n && n % 2 == 1 && IsProduct(x, n, HIGH - h)
    ensures 0 <= x
    ensures var d := Units(x as real) - x as real; d == h as real || d == -(h as real)
  {
    hide Units, Pow2, Enlarged, IsProduct;
    var w := TieProduct(n, c, h, x);
    TieEnlarged(n, w, h, x);
    RoundedTie(k, 2 * w - n, h, x);
  }

  lemma Halves(p: nat)
    requires p <= 51
    ensures Pow2(p + 1) == 2 * Pow2(p) && 2 <= Pow2(52 - p) && 4 * Pow2(p) <= HIGH
    ensures IsProduct(HIGH, 2 * Pow2(p), Pow2(52 - p))
  {
    assert Pow2(p + 1) == 2 * Pow2(p) && 2 <= Pow2(52 - p);
    hide Pow2;
    Whole();
    PowMonotone(p, 51);
    PowSum(p + 1, 52 - p);
  }

  lemma FarByHalf(n: int, h: int, x: int, product: real)
    requires 1 <= h && h < n < 2 * h && 4 * h <= HIGH && IsProduct(x, n, HIGH - h) && 0.0 <= product
    requires var d := product - x as real; d == h as real || d == -(h as real)
    ensures LOW as real <= Reduced(product, n) && Units(Reduced(product, n)) != (HIGH - h) as real
  {
    hide Units, Reduced, IsProduct;
    FarProduct(n, HIGH - h, x, product);
  }

  /** Otherwise a sample whose product by an odd factor is a tie is lost. */
  lemma LostAtTie(n: int, p: nat, h: int, x: int)
    requires h == Pow2(p) && h < n < 2 * h && p <= 51 && 4 * h <= 3 * n && n % 2 == 1
    requires IsProduct(x, n, HIGH - h)
    ensures LOW < HIGH - h < HIGH && 0 <= x
    ensures LOW as real <= Reduced(Units(x as real), n)
    ensures Units(Reduced(Units(x as real), n)) != (HIGH - h) as real
  {
    hide Units, Pow2, Reduced, IsProduct;
    Halves(p);
    TieRounded(n, p + 1, Pow2(52 - p), h, x);
    FarByHalf(n, h, x, Units(x as real));
  }

  lemma OddLost(m: int) returns (v: int)
    requires 3 <= m <= LOW && m % 2 == 1
    ensures LOW < v < HIGH && 0 <= m * v
    ensures
      var product := Units((m * v) as real);
      LOW as real <= Reduced(product, m) && Units(Reduced(product, m)) != v as real
  {
    var p := Exponent(m);
    assert Pow2(p + 1) == 2 * Pow2(p);
    assert p > 0 ==> Pow2(p) == 2 * Pow2(p - 1);
    hide Units, Pow2;
    Whole();
    if 52 <= p {
      PowMonotone(52, p);
    }
    if 3 * m < 2 * Pow2(p + 1) {
      LostAtTop(m, p);
      v := HIGH - 1;
    } else {
      v := HIGH - Pow2(p);
      LostAtTie(m, p, Pow2(p), m * v);
    }
  }

  ghost predicate PowerOfTwo(n: int) {
    exists k: nat :: n == Pow2(k)
  }

  lemma ShiftedProduct(m: int, t: int, v: int, x: int)
    requires x == (t * m) * v
    ensures x == m * v * t
  {
  }

  lemma ShiftedQuotient(r: real, t: int, m: int)
    requires 1 <= t && 1 <= m
    ensures r * t as real / (t * m) as real == r / m as real
  {
    RealProduct(t, m);
    var q := r / m as real;
    assert q * m as real == r;
    assert q * (t * m) as real == r * t as real;
  }

  lemma IntScaled(y: int, a: nat, t: int, x: int)
    requires LOW <= y && t == Pow2(a) && x == y * t
    ensures 0 <= x && Units(x as real) == Units(y as real) * t as real
  {
    hide Units, Pow2;
    RealProduct(y, t);
    UnitsScaled(y as real, a);
    assert Enlarged(y as real, t) == x as real;
  }

  lemma ShiftedLost(m: int, a: nat, t: int, y: int, x: int)
    requires 1 <= m && LOW <= y && t == Pow2(a) && x == y * t
    ensures 0 <= x && 1 <= t * m
    ensures Units(x as real) / (t * m) as real == Units(y as real) / m as real
  {
    hide Units, Pow2;
    Times(1, t, m);
    IntScaled(y, a, t, x);
    ShiftedQuotient(Units(y as real), t, m);
  }

  /** Multiplying by anything but a power of two, rounding, and dividing back loses some sample. */
  lemma UnitsLost(n: int) returns (v: int)
    requires 1 <= n <= LOW && !PowerOfTwo(n)
    ensures LOW < v < HIGH && 0 <= n * v
    ensures
      var product := Units((n * v) as real);
      LOW as real <= Reduced(product, n) && Units(Reduced(product, n)) != v as real
  {
    hide Units, Pow2;
    var a, m := OddPart(n);
    if m == 1 {
      assert false;
    }
    v := OddLost(m);
    Times(1, m, v);
    ShiftedProduct(m, Pow2(a), v, n * v);
    ShiftedLost(m, a, Pow2(a), m * v, n * v);
  }

  // ---------------------------------------------------------------- rounding of reals

  lemma EnlargedMonotone(x: real, y: real, u: int)
    requires 1 <= u && x <= y
    ensures Enlarged(x, u) <= Enlarged(y, u) && (0.0 <= x ==> 0.0 <= Enlarged(x, u))
  {
  }

  lemma ReducedMonotone(x: real, y: real, u: int)
    requires 1 <= u && x <= y
    ensures Reduced(x, u) <= Reduced(y, u) && (0.0 <= x ==> 0.0 <= Reduced(x, u))
  {
  }

  /** The nearest float that is not negative, its last place no finer than 1 / u. */
  function Placed(x: real, u: int): (r: real)
    requires 0.0 <= x && 1 <= u
    ensures 0.0 <= r
  {
    EnlargedMonotone(0.0, x, u);
    ReducedMonotone(0.0, Units(Enlarged(x, u)), u);
    Reduced(Units(Enlarged(x, u)), u)
  }

  lemma PlacedZero(u: int)
    requires 1 <= u
    ensures Placed(0.0, u) == 0.0
  {
    HalfEvenNear(0.0);
  }

  lemma PlacedMonotone(x: real, y: real, u: int)
    requires 0.0 <= x <= y && 1 <= u
    ensures Placed(x, u) <= Placed(y, u)
  {
    hide Units, Enlarged, Reduced;
    EnlargedMonotone(0.0, x, u);
    EnlargedMonotone(x, y, u);
    UnitsMonotone(Enlarged(x, u), Enlarged(y, u));
    ReducedMonotone(Units(Enlarged(x, u)), Units(Enlarged(y, u)), u);
  }

  lemma PlacedIdempotent(x: real, u: int)
    requires 0.0 <= x && 1 <= u
    ensures Placed(Placed(x, u), u) == Placed(x, u)
  {
    hide Units, Enlarged, Reduced;
    EnlargedMonotone(0.0, x, u);
    Restored(Units(Enlarged(x, u)), u);
    UnitsIdempotent(Enlarged(x, u));
  }

  /** The nearest float whose last place is no finer than 2^-e. */
  function Round(e: nat, x: real): real {
    if x < 0.0 then -Placed(-x, Pow2(e)) else Placed(x, Pow2(e))
  }

  function Binary64(x: real): real {
    Round(1074, x)
  }

  /** All that most results need of a rounding: it keeps the order, and what it returns it keeps. */
  ghost predicate Rounds(rd: real -> real) {
    && (forall x, y :: x <= y ==> rd(x) <= rd(y))
    && (forall x :: rd(rd(x)) == rd(x))
  }

  lemma RoundOdd(e: nat, x: real)
    ensures Round(e, -x) == -Round(e, x)
  {
    hide Placed, Pow2;
    PlacedZero(Pow2(e));
  }

  lemma RoundMonotone(e: nat, x: real, y: real)
    requires x <= y
    ensures Round(e, x) <= Round(e, y)
  {
    hide Placed, Pow2;
    if 0.0 <= x {
      PlacedMonotone(x, y, Pow2(e));
    } else if y < 0.0 {
      PlacedMonotone(-y, -x, Pow2(e));
    }
  }

  lemma RoundIdempotent(e: nat, x: real)
    ensures Round(e, Round(e, x)) == Round(e, x)
  {
    hide Placed, Pow2;
    PlacedZero(Pow2(e));
    if 0.0 <= x {
      PlacedIdempotent(x, Pow2(e));
    } else {
      PlacedIdempotent(-x, Pow2(e));
    }
  }

  lemma Binary64Rounds()
    ensures Rounds(Binary64)
  {
    hide Round;
    forall x: real, y: real | x <= y
      ensures Binary64(x) <= Binary64(y)
    {
      RoundMonotone(1074, x, y);
    }
    forall x: real
      ensures Binary64(Binary64(x)) == Binary64(x)
    {
      RoundIdempotent(1074, x);
    }
  }

  lemma EnlargedReduced(x: real, t: int, w: int, u: int)
    requires 1 <= t && 1 <= w && u == t * w
    ensures 1 <= u && Enlarged(Reduced(x, t), u) == Enlarged(x, w) && Reduced(Enlarged(x, w), u) == Reduced(x, t)
  {
    Times(1, w, t);
    RealProduct(t, w);
    var q := x / t as real;
    assert q * t as real == x;
    assert q * u as real == q * t as real * w as real;
  }

  /** Numbers with enough bits above the last place round as they do in units. */
  lemma RoundScaled(e: nat, k: nat, x: real)
    requires k <= e && LOW as real <= x
    ensures Round(e, Reduced(x, Pow2(k))) == Reduced(Units(x), Pow2(k))
  {
    hide Units, Pow2, Enlarged, Reduced;
    PowSum(k, e - k);
    EnlargedReduced(x, Pow2(k), Pow2(e - k), Pow2(e));
    EnlargedReduced(Units(x), Pow2(k), Pow2(e - k), Pow2(e));
    UnitsScaled(x, e - k);
    ReducedMonotone(0.0, x, Pow2(k));
  }

  // ---------------------------------------------------------------- equal samples

  /** The mean of n samples v: their sum is rounded once, and so is the quotient. */
  function EqualMean(e: nat, n: int, v: real): real
    requires 1 <= n
  {
    Round(e, Reduced(Round(e, Enlarged(v, n)), n))
  }

  lemma Swapped(x: real, t: int, u: int)
    ensures Enlarged(Enlarged(x, t), u) == Enlarged(Enlarged(x, u), t)
  {
    assert x * t as real * u as real == x * u as real * t as real;
  }

  lemma PlacedScaled(v: real, k: nat, u: int)
    requires 0.0 <= v && 1 <= u && Placed(v, u) == v
    ensures 0.0 <= Enlarged(v, Pow2(k)) && Placed(Enlarged(v, Pow2(k)), u) == Enlarged(v, Pow2(k))
  {
    hide Units, Enlarged, Reduced, Pow2;
    var t := Pow2(k);
    EnlargedMonotone(0.0, v, t);
    EnlargedMonotone(0.0, v, u);
    Restored(Units(Enlarged(v, u)), u);
    assert Units(Enlarged(v, u)) == Enlarged(v, u);
    RepresentableScaled(Enlarged(v, u), k);
    Swapped(v, t, u);
    ReducedEnlarged(Enlarged(v, t), u);
  }

  lemma ReducedEnlarged(x: real, u: int)
    requires 1 <= u
    ensures Reduced(Enlarged(x, u), u) == x
  {
  }

  lemma RoundRepresentable(e: nat, v: real, k: nat)
    requires Round(e, v) == v
    ensures Round(e, Enlarged(v, Pow2(k))) == Enlarged(v, Pow2(k))
  {
    hide Placed, Pow2, Enlarged;
    EnlargedOdd(v, Pow2(k));
    if 0.0 <= v {
      PlacedScaled(v, k, Pow2(e));
    } else {
      PlacedScaled(-v, k, Pow2(e));
      RoundOdd(e, Enlarged(-v, Pow2(k)));
    }
  }

  lemma EnlargedOdd(v: real, t: int)
    ensures Enlarged(-v, t) == -Enlarged(v, t)
  {
  }

  /** A power of two of equal samples averages to the sample. */
  lemma PowerOfTwoKept(e: nat, n: int, v: real)
    requires 1 <= n && PowerOfTwo(n) && Round(e, v) == v
    ensures EqualMean(e, n, v) == v
  {
    hide Round, Pow2, Enlarged, Reduced;
    var k: nat :| n == Pow2(k);
    RoundRepresentable(e, v, k);
    ReducedEnlarged(v, n);
  }

  lemma ReducedProduct(n: int, v: int, t: int)
    requires 1 <= t
    ensures Enlarged(Reduced(v as real, t), n) == Reduced((n * v) as real, t)
  {
    RealProduct(n, v);
    var q := v as real / t as real;
    assert n as real * q * t as real == n as real * v as real;
  }

  lemma ReducedQuotient(r: real, n: int, t: int)
    requires 1 <= t && 1 <= n
    ensures Reduced(Reduced(r, t), n) == Reduced(Reduced(r, n), t)
  {
    var q := r / n as real;
    assert q * n as real == r;
    assert q / t as real * n as real * t as real == r;
  }

  lemma ReducedInRange(v: int, t: int)
    requires 0 < v < t
    ensures 0.0 < Reduced(v as real, t) < 1.0
  {
    Cancel(t as real, 0.0, v as real / t as real);
    Cancel(t as real, v as real / t as real, 1.0);
  }

  lemma UnitsWhole(v: int)
    requires 0 <= v < HIGH
    ensures Units(v as real) == v as real
  {
    HalfEvenNear(v as real);
  }

  lemma EqualMeanScaled(e: nat, n: int, v: int)
    requires 53 <= e && 1 <= n && LOW <= v < HIGH && LOW <= n * v
    requires LOW as real <= Reduced(Units((n * v) as real), n)
    ensures Round(e, Reduced(v as real, HIGH)) == Reduced(v as real, HIGH)
    ensures EqualMean(e, n, Reduced(v as real, HIGH))
         == Reduced(Units(Reduced(Units((n * v) as real), n)), HIGH)
  {
    hide Units, Pow2, Reduced, Enlarged, Round;
    Whole();
    UnitsWhole(v);
    RoundScaled(e, 53, v as real);
    ReducedProduct(n, v, HIGH);
    RoundScaled(e, 53, (n * v) as real);
    var product := Units((n * v) as real);
    ReducedQuotient(product, n, HIGH);
    RoundScaled(e, 53, Reduced(product, n));
  }

  /** For every other number of samples some sample between 0 and 1 is not its own average. */
  lemma OtherwiseLost(e: nat, n: int) returns (v: real)
    requires 53 <= e && 1 <= n <= LOW && !PowerOfTwo(n)
    ensures 0.0 < v < 1.0 && Round(e, v) == v
    ensures EqualMean(e, n, v) != v
  {
    hide Units, Pow2, Round, PowerOfTwo, EqualMean;
    var w := UnitsLost(n);
    Times(1, n, w);
    EqualMeanScaled(e, n, w);
    ReducedInRange(w, HIGH);
    v := Reduced(w as real, HIGH);
    Restored(w as real, HIGH);
    Restored(Units(Reduced(Units((n * w) as real), n)), HIGH);
  }

  // ---------------------------------------------------------------- exact values

  /** Fractions of 53 bits over a power of two are their own floats. */
  lemma RoundDyadic(e: nat, k: nat, m: int)
    requires k <= e && 0 <= m < HIGH
    ensures Round(e, Reduced(m as real, Pow2(k))) == Reduced(m as real, Pow2(k))
  {
    hide Units, Pow2, Enlarged, Reduced;
    PowSum(k, e - k);
    EnlargedReduced(m as real, Pow2(k), Pow2(e - k), Pow2(e));
    UnitsWhole(m);
    RepresentableScaled(m as real, e - k);
    ReducedMonotone(0.0, m as real, Pow2(k));
  }

  /** A fraction between 1/2 and 1 keeps the nearest 53 bits. */
  lemma RoundFraction(x: real, m: int)
    requires LOW <= m < HIGH && -0.5 < x * HIGH as real - m as real < 0.5
    ensures LOW as real <= x * HIGH as real < HIGH as real ==> Binary64(x) == Reduced(m as real, HIGH)
  {
    hide Units, Pow2, Round;
    var y := x * HIGH as real;
    if LOW as real <= y < HIGH as real {
      Whole();
      RoundScaled(1074, 53, y);
      UnitsBelow(y);
      NearestWhole(y, m);
    }
  }

  lemma NearestWhole(y: real, m: int)
    requires -0.5 < y - m as real < 0.5
    ensures HalfEven(y) == m
  {
    HalfEvenNear(y);
  }
}
