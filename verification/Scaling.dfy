/** How the coder shares a range out: a count's place in the total, scaled to the range's width in floating point. */
module Scaling {

  const FULL: nat := 0x1_0000_0000_0000
  const HALF: nat := 0x8000_0000_0000
  const QUARTER: nat := 0x4000_0000_0000
  const THREE_QUARTERS: nat := 0xC000_0000_0000

  /** Far above any count a byte array can bring about. */
  const MAX_TOTAL: nat := 0x100_0000_0000

  /** Scales `part` of `total` to a width. */
  type Share = (nat, nat, nat) -> nat

  /** What the coder needs of its scaling: nothing is nothing, all is all,
      and more is strictly more once the width is a quarter. */
  ghost predicate Shares(share: Share) {
    forall width: nat, total: nat :: QUARTER <= width <= FULL && 0 < total <= MAX_TOTAL ==>
      && share(width, 0, total) == 0
      && share(width, total, total) == width
      && forall a: nat, b: nat :: a < b <= total ==> share(width, a, total) < share(width, b, total)
  }

  // ---- Floating point

  const ULP: real := 1.0 / 9007199254740992.0

  /** What binary64 rounding guarantees: order, integers to 2^53, and
      half an ulp of every number between a tiny one and 2^53. */
  ghost predicate Rounds(round: real -> real) {
    && (forall x: real, y: real :: x <= y ==> round(x) <= round(y))
    && (forall x: real :: 0.0 <= x <= 9007199254740992.0 && x == x.Floor as real ==> round(x) == x)
    && (forall x: real :: 1.0 / 4398046511104.0 <= x <= 9007199254740992.0 ==> x - x * ULP <= round(x) <= x + x * ULP)
  }

  function Times(x: real, y: real): real {
    x * y
  }

  /** What is floored, before flooring: width * (part / total), each operation rounded. */
  function Product(round: real -> real, width: nat, part: nat, total: nat): real
    requires total > 0
  {
    round(Times(width as real, round(part as real / total as real)))
  }

  /** floor(width * (part / total)) as binary64 computes it. */
  function Scaled(round: real -> real, width: nat, part: nat, total: nat): nat {
    if total == 0 || Product(round, width, part, total) < 0.0 then 0 else Product(round, width, part, total).Floor
  }

  function RoundedShare(round: real -> real): Share {
    (width: nat, part: nat, total: nat) => Scaled(round, width, part, total)
  }

  /** The scaling without rounding. */
  function ExactShare(): Share {
    (width: nat, part: nat, total: nat) => if total == 0 then 0 else width * part / total
  }

  lemma {:induction false} TimesInOrder(x: real, low: real, high: real)
    requires x >= 0.0 && low <= high
    ensures Times(x, low) <= Times(x, high) && Times(low, x) <= Times(high, x)
  {
  }

  lemma {:induction false} TimesAdds(x: real, y: real, z: real)
    ensures Times(x, y + z) == Times(x, y) + Times(x, z)
    ensures Times(x, 1.0) == x && Times(x, 0.0) == 0.0 && Times(x, -y) == -Times(x, y)
  {
  }

  const SMALLEST_PART: real := 1.0 / 1099511627776.0

  lemma {:induction false} Figures()
    ensures Times(281474976710656.0, ULP) == 0.03125
    ensures Times(281474976710657.0, ULP) <= 0.0625
    ensures Times(70368744177664.0, SMALLEST_PART) == 64.0
  {
  }

  lemma {:induction false} InversesInOrder(t: real, m: real)
    requires 0.0 < t <= m
    ensures 1.0 / m <= 1.0 / t
  {
    var x, y := 1.0 / t, 1.0 / m;
    assert x * t == 1.0 && y * m == 1.0;
    if x < y {
      TimesInOrder(y, t, m);
      assert false;
    }
  }

  lemma {:induction false} QuotientsInOrder(p: real, q: real, t: real)
    requires 0.0 < t && p <= q
    ensures p / t <= q / t
  {
  }

  lemma {:induction false} PartIsNotTiny(part: nat, total: nat)
    requires 0 < part <= total <= MAX_TOTAL
    ensures SMALLEST_PART <= part as real / total as real <= 1.0
  {
    InversesInOrder(total as real, 1099511627776.0);
    QuotientsInOrder(1.0, part as real, total as real);
    QuotientsInOrder(part as real, total as real, total as real);
    assert total as real / total as real == 1.0;
  }

  lemma {:induction false} RoundsQuotient(round: real -> real, q: real)
    requires Rounds(round) && SMALLEST_PART <= q <= 1.0
    ensures q - ULP <= round(q) <= q + ULP
  {
    assert q * ULP <= ULP by {
      TimesInOrder(ULP, q, 1.0);
    }
  }

  lemma {:induction false} RoundsProduct(round: real -> real, p: real)
    requires Rounds(round) && 1.0 <= p <= 281474976710657.0
    ensures p - 0.0625 <= round(p) <= p + 0.0625
  {
    Figures();
    assert p * ULP <= 0.0625 by {
      TimesInOrder(ULP, p, 281474976710657.0);
    }
  }

  lemma {:induction false} RoundsWhole(round: real -> real, x: real)
    requires Rounds(round) && 0.0 <= x <= 9007199254740992.0 && x == x.Floor as real
    ensures round(x) == x
  {
  }

  lemma {:induction false} ProductIsClose(w: real, q: real, d: real)
    requires 0.0 <= w <= 281474976710656.0 && -ULP <= d <= ULP
    ensures Times(w, q) - 0.03125 <= Times(w, q + d) <= Times(w, q) + 0.03125
  {
    TimesInOrder(w, d, ULP);
    TimesInOrder(w, -ULP, d);
    TimesInOrder(ULP, w, 281474976710656.0);
    TimesAdds(w, q, d);
    TimesAdds(w, ULP, 0.0);
    Figures();
    hide Times;
  }

  /** The rounded product is within an eighth of the exact one. */
  lemma {:induction false} RoundedIsClose(round: real -> real, width: nat, part: nat, total: nat)
    requires Rounds(round) && QUARTER <= width <= FULL && 0 < part <= total <= MAX_TOTAL
    ensures var exact := Times(width as real, part as real / total as real);
            && 63.0 <= exact
            && exact - 0.125 <= Product(round, width, part, total) <= exact + 0.125
  {
    PartIsNotTiny(part, total);
    var w, q := width as real, part as real / total as real;
    RoundsQuotient(round, q);
    CloseProduct(round, w, q, round(q) - q);
    assert q + (round(q) - q) == round(q);
    hide Rounds, Times;
  }

  lemma {:induction false} CloseProduct(round: real -> real, w: real, q: real, d: real)
    requires Rounds(round) && 70368744177664.0 <= w <= 281474976710656.0
    requires SMALLEST_PART <= q <= 1.0 && -ULP <= d <= ULP
    ensures 63.0 <= Times(w, q) && Times(w, q) - 0.125 <= round(Times(w, q + d)) <= Times(w, q) + 0.125
  {
    ProductIsClose(w, q, d);
    TimesInOrder(q, 70368744177664.0, w);
    TimesInOrder(70368744177664.0, SMALLEST_PART, q);
    TimesInOrder(w, q, 1.0);
    TimesAdds(w, 0.0, 0.0);
    Figures();
    hide Times;
    RoundsProduct(round, Times(w, q + d));
    hide Rounds;
  }

  lemma {:induction false} QuotientsApart(a: nat, b: nat, total: nat)
    requires a < b <= total && total <= MAX_TOTAL
    ensures b as real / total as real >= a as real / total as real + SMALLEST_PART
  {
    var t := total as real;
    assert b as real / t - a as real / t == (b - a) as real / t;
    QuotientsInOrder(1.0, (b - a) as real, t);
    InversesInOrder(t, 1099511627776.0);
  }

  lemma {:induction false} PartsApart(width: nat, a: nat, b: nat, total: nat)
    requires QUARTER <= width && a < b <= total && total <= MAX_TOTAL
    ensures Times(width as real, b as real / total as real) >= Times(width as real, a as real / total as real) + 2.0
  {
    var w, p, q := width as real, a as real / total as real, b as real / total as real;
    QuotientsApart(a, b, total);
    TimesInOrder(w, p + SMALLEST_PART, q);
    TimesAdds(w, p, SMALLEST_PART);
    TimesInOrder(SMALLEST_PART, 70368744177664.0, w);
    Figures();
    hide Times;
  }

  lemma {:induction false} NothingIsNothing(round: real -> real, width: nat, total: nat)
    requires Rounds(round) && 0 < total
    ensures Product(round, width, 0, total) == 0.0
    ensures Scaled(round, width, 0, total) == 0
    ensures Times(width as real, 0 as real / total as real) == 0.0
  {
    RoundsWhole(round, 0.0);
    TimesAdds(width as real, 0.0, 0.0);
    assert 0 as real / total as real == 0.0;
    hide Rounds, Times;
  }

  lemma {:induction false} AllIsAll(round: real -> real, width: nat, total: nat)
    requires Rounds(round) && width <= FULL && 0 < total
    ensures Scaled(round, width, total, total) == width
  {
    RoundsWhole(round, 1.0);
    RoundsWhole(round, width as real);
    TimesAdds(width as real, 0.0, 0.0);
    assert total as real / total as real == 1.0;
    hide Rounds, Times;
  }

  lemma {:induction false} ProductsApart(round: real -> real, width: nat, a: nat, b: nat, total: nat)
    requires Rounds(round) && QUARTER <= width <= FULL && a < b <= total && total <= MAX_TOTAL
    ensures Product(round, width, b, total) >= Product(round, width, a, total) + 1.0
    ensures Product(round, width, b, total) >= 1.0
  {
    PartsApart(width, a, b, total);
    RoundedIsClose(round, width, b, total);
    if a == 0 {
      NothingIsNothing(round, width, total);
    } else {
      RoundedIsClose(round, width, a, total);
    }
    hide Product, Rounds, Times;
  }

  lemma {:induction false} FloorsApart(x: real, y: real)
    requires y >= x + 1.0
    ensures x.Floor < y.Floor
  {
  }

  lemma {:induction false} StrictlyMore(round: real -> real, width: nat, a: nat, b: nat, total: nat)
    requires Rounds(round) && QUARTER <= width <= FULL && a < b <= total && total <= MAX_TOTAL
    ensures Scaled(round, width, a, total) < Scaled(round, width, b, total)
  {
    ProductsApart(round, width, a, b, total);
    hide Product, Rounds;
    FloorsApart(Product(round, width, a, total), Product(round, width, b, total));
    FloorsApart(0.0, Product(round, width, b, total));
  }

  /** Scaling in floating point is fit for the coder, whatever the rounding's ties. */
  lemma {:induction false} FloatsShare(round: real -> real)
    requires Rounds(round)
    ensures Shares(RoundedShare(round))
  {
    var share := RoundedShare(round);
    hide Scaled;
    forall width: nat, total: nat | QUARTER <= width <= FULL && 0 < total <= MAX_TOTAL
      ensures share(width, 0, total) == 0 && share(width, total, total) == width
      ensures forall a: nat, b: nat :: a < b <= total ==> share(width, a, total) < share(width, b, total)
    {
      NothingIsNothing(round, width, total);
      AllIsAll(round, width, total);
      forall a: nat, b: nat | a < b <= total
        ensures share(width, a, total) < share(width, b, total)
      {
        StrictlyMore(round, width, a, b, total);
      }
    }
  }

  lemma {:induction false} ExactStrictlyMore(width: nat, a: nat, b: nat, total: nat)
    requires QUARTER <= width && a < b <= total && total <= MAX_TOTAL
    ensures width * a / total < width * b / total
  {
    var x, y := width * a, width * b;
    assert y >= x + width by {
      Grows(width, 1, b - a);
      assert y == x + width * (b - a);
    }
    DividesApart(x, y, total);
  }

  lemma {:induction false} Grows(x: nat, low: nat, high: nat)
    requires low <= high
    ensures x * low <= x * high
  {
  }

  lemma {:induction false} DividesApart(x: nat, y: nat, d: nat)
    requires d > 0 && x + d <= y
    ensures x / d < y / d
  {
    var p, q := x / d, y / d;
    assert x == d * p + x % d && y == d * q + y % d;
    if q <= p {
      Grows(d, q, p);
      assert false;
    }
  }

  lemma {:induction false} DividesBack(x: nat, d: nat)
    requires d > 0
    ensures x * d / d == x
  {
    var q := x * d / d;
    assert x * d == d * q + x * d % d;
    if q < x {
      Grows(d, q + 1, x);
    } else if q > x {
      Grows(d, x + 1, q);
    }
  }

  /** So is scaling without rounding. */
  lemma {:induction false} ExactlyShares()
    ensures Shares(ExactShare())
  {
    var share := ExactShare();
    forall width: nat, total: nat | QUARTER <= width <= FULL && 0 < total <= MAX_TOTAL
      ensures share(width, 0, total) == 0 && share(width, total, total) == width
      ensures forall a: nat, b: nat :: a < b <= total ==> share(width, a, total) < share(width, b, total)
    {
      DividesBack(width, total);
      forall a: nat, b: nat | a < b <= total
        ensures share(width, a, total) < share(width, b, total)
      {
        ExactStrictlyMore(width, a, b, total);
      }
    }
  }
}
