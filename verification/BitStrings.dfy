/** Strings of bits, most significant first, and the numbers of a fixed width they spell. */
module BitStrings {
  import opened Powers

  type BitString = seq<bool>

  function Weight(bit: bool): nat {
    if bit then 1 else 0
  }

  /** The `width` low bits of a number. */
  function BitsOf(x: nat, width: nat): (bits: BitString)
    ensures |bits| == width
  {
    if width == 0 then [] else BitsOf(x / 2, width - 1) + [x % 2 == 1]
  }

  function NumberOf(bits: BitString): nat {
    if bits == [] then 0 else 2 * NumberOf(bits[..|bits| - 1]) + Weight(bits[|bits| - 1])
  }

  lemma {:induction false} NumberOfBits(x: nat, width: nat)
    requires x < Pow2(width)
    ensures NumberOf(BitsOf(x, width)) == x
  {
    if width > 0 {
      NumberOfBits(x / 2, width - 1);
      assert BitsOf(x, width)[..width - 1] == BitsOf(x / 2, width - 1);
    }
  }

  lemma {:induction false} Halves(number: nat, bit: bool)
    ensures (2 * number + Weight(bit)) / 2 == number && ((2 * number + Weight(bit)) % 2 == 1) == bit
  {
  }

  lemma {:induction false} BitsOfNumber(bits: BitString)
    ensures NumberOf(bits) < Pow2(|bits|)
    ensures BitsOf(NumberOf(bits), |bits|) == bits
  {
    if bits != [] {
      var front, last := bits[..|bits| - 1], bits[|bits| - 1];
      BitsOfNumber(front);
      var number := NumberOf(front);
      Halves(number, last);
      assert BitsOf(2 * number + Weight(last), |bits|) == BitsOf(number, |front|) + [last];
      assert bits == front + [last];
    }
  }

  /** Shifting right and masking reads one bit. */
  lemma {:induction false} BitAtShift(x: nat, width: nat, i: nat)
    requires i < width
    ensures BitsOf(x, width)[i] <==> x / Pow2(width - 1 - i) % 2 == 1
  {
    if i < width - 1 {
      BitAtShift(x / 2, width - 1, i);
      HalvesThenDivides(x, Pow2(width - 2 - i));
    }
  }

  lemma {:induction false} HalvesThenDivides(x: nat, d: nat)
    requires d > 0
    ensures x / 2 / d == x / (2 * d)
  {
    var q := x / (2 * d);
    var r := x % (2 * d);
    assert x == 2 * (d * q) + r;
    assert x / 2 == d * q + r / 2;
    assert r / 2 < d;
    QuotientIs(x / 2, d, q, r / 2);
  }

  lemma {:induction false} QuotientIs(x: nat, d: nat, q: nat, r: nat)
    requires x == d * q + r && r < d
    ensures x / d == q
  {
    var p := x / d;
    assert x == d * p + x % d;
    if p < q {
      Steps(d, p + 1, q);
    } else if q < p {
      Steps(d, q + 1, p);
    }
  }

  lemma {:induction false} Steps(d: nat, low: nat, high: nat)
    requires low <= high
    ensures d * low <= d * high
  {
  }

  /** Setting a bit that was zero adds its weight. */
  lemma {:induction false} SetBit(bits: BitString, i: nat, bit: bool)
    requires i < |bits| && !bits[i]
    ensures NumberOf(bits[i := bit]) == NumberOf(bits) + Weight(bit) * Pow2(|bits| - 1 - i)
  {
    var last := |bits| - 1;
    if i == last {
      assert bits[i := bit][..last] == bits[..last];
    } else {
      assert bits[i := bit][..last] == bits[..last][i := bit];
      SetBit(bits[..last], i, bit);
      assert 2 * (Weight(bit) * Pow2(last - 1 - i)) == Weight(bit) * Pow2(last - i);
    }
  }

  /** The leading bit carries the highest weight. */
  lemma {:induction false} LeadingBit(bit: bool, rest: BitString)
    ensures NumberOf([bit] + rest) == Weight(bit) * Pow2(|rest|) + NumberOf(rest)
  {
    if rest == [] {
      assert [bit] + rest == [bit];
      assert [bit][..0] == [];
    } else {
      var last := |rest| - 1;
      LeadingBit(bit, rest[..last]);
      assert ([bit] + rest)[..|rest|] == [bit] + rest[..last];
      assert 2 * (Weight(bit) * Pow2(last)) == Weight(bit) * Pow2(|rest|);
    }
  }

  // ---- Reading past the end

  function Zeros(n: nat): (zeros: BitString)
    ensures |zeros| == n && forall i :: 0 <= i < n ==> !zeros[i]
  {
    seq(n, i => false)
  }

  function At(bits: BitString, i: nat): bool {
    i < |bits| && bits[i]
  }

  /** The first `n` bits, zeros past the end. */
  function Window(bits: BitString, n: nat): (window: BitString)
    ensures |window| == n && forall i :: 0 <= i < n ==> window[i] == At(bits, i)
  {
    seq(n, i requires 0 <= i < n => At(bits, i))
  }

  // ---- Numbers of a fixed width, one after another

  /** How many bits `n` numbers of a width take. */
  function Span(n: nat, width: nat): nat {
    if n == 0 then 0 else Span(n - 1, width) + width
  }

  lemma {:induction false} SpanIsProduct(n: nat, width: nat)
    ensures Span(n, width) == n * width
  {
    if n > 0 {
      SpanIsProduct(n - 1, width);
      assert n * width == (n - 1) * width + width;
    }
  }

  lemma {:induction false} SpansInOrder(m: nat, n: nat, width: nat)
    requires m <= n
    ensures Span(m, width) <= Span(n, width)
  {
    if m < n {
      SpansInOrder(m, n - 1, width);
    }
  }

  function Spread(numbers: seq<nat>, width: nat): (bits: BitString)
    ensures |bits| == Span(|numbers|, width)
  {
    if numbers == [] then [] else
      var last := |numbers| - 1;
      Spread(numbers[..last], width) + BitsOf(numbers[last], width)
  }

  function Gather(bits: BitString, count: nat, width: nat): (numbers: seq<nat>)
    requires |bits| == Span(count, width)
    ensures |numbers| == count
    decreases count
  {
    if count == 0 then [] else
      var front := |bits| - width;
      Gather(bits[..front], count - 1, width) + [NumberOf(bits[front..])]
  }

  lemma {:induction false} GatherSnoc(front: BitString, back: BitString, count: nat, width: nat)
    requires |front| == Span(count, width) && |back| == width
    ensures |front + back| == Span(count + 1, width)
    ensures Gather(front + back, count + 1, width) == Gather(front, count, width) + [NumberOf(back)]
  {
    assert (front + back)[..|front|] == front && (front + back)[|front|..] == back;
  }

  /** Every number fits its width. */
  predicate Fit(numbers: seq<nat>, width: nat) {
    forall i :: 0 <= i < |numbers| ==> numbers[i] < Pow2(width)
  }

  lemma {:induction false} GatherSpread(numbers: seq<nat>, width: nat)
    requires Fit(numbers, width)
    ensures Gather(Spread(numbers, width), |numbers|, width) == numbers
  {
    hide NumberOf, BitsOf, Pow2;
    if numbers != [] {
      var last := |numbers| - 1;
      GatherSpread(numbers[..last], width);
      NumberOfBits(numbers[last], width);
      GatherSnoc(Spread(numbers[..last], width), BitsOf(numbers[last], width), last, width);
      assert numbers == numbers[..last] + [numbers[last]];
    }
  }

  lemma {:induction false} SpreadGather(bits: BitString, count: nat, width: nat)
    requires |bits| == Span(count, width)
    ensures Spread(Gather(bits, count, width), width) == bits
    ensures Fit(Gather(bits, count, width), width)
    decreases count
  {
    hide NumberOf, BitsOf, Pow2, Gather, Spread;
    if count == 0 {
      NothingGathers(bits, width);
    } else {
      var front, back := bits[..|bits| - width], bits[|bits| - width..];
      assert bits == front + back;
      SpreadGather(front, count - 1, width);
      GatherSnoc(front, back, count - 1, width);
      OneSpread(Gather(front, count - 1, width), back, width);
    }
  }

  lemma {:induction false} NothingGathers(bits: BitString, width: nat)
    requires bits == []
    ensures Gather(bits, 0, width) == [] && Spread([], width) == []
  {
  }

  lemma {:induction false} OneSpread(numbers: seq<nat>, back: BitString, width: nat)
    requires |back| == width && Fit(numbers, width)
    ensures Spread(numbers + [NumberOf(back)], width) == Spread(numbers, width) + back
    ensures Fit(numbers + [NumberOf(back)], width)
  {
    hide NumberOf, BitsOf, Pow2, Spread;
    BitsOfNumber(back);
    SpreadSnoc(numbers, NumberOf(back), width);
  }

  lemma {:induction false} SpreadSnoc(numbers: seq<nat>, x: nat, width: nat)
    ensures Spread(numbers + [x], width) == Spread(numbers, width) + BitsOf(x, width)
  {
    assert (numbers + [x])[..|numbers|] == numbers;
  }

  /** Where a bit of a spread comes from. */
  lemma {:induction false} SpreadAt(numbers: seq<nat>, width: nat, k: nat, j: nat)
    requires k < |numbers| && j < width
    ensures Span(k, width) + j < |Spread(numbers, width)|
    ensures Spread(numbers, width)[Span(k, width) + j] == BitsOf(numbers[k], width)[j]
  {
    var last := |numbers| - 1;
    var front, back := Spread(numbers[..last], width), BitsOf(numbers[last], width);
    assert Spread(numbers, width) == front + back;
    if k < last {
      SpreadAt(numbers[..last], width, k, j);
      hide Spread, BitsOf, Span;
    }
  }

  /** What a gather reads at a place. */
  lemma {:induction false} GatherAt(bits: BitString, count: nat, width: nat, k: nat)
    requires |bits| == Span(count, width) && k < count
    ensures Span(k, width) + width <= |bits|
    ensures Gather(bits, count, width)[k] == NumberOf(bits[Span(k, width)..Span(k, width) + width])
    decreases count
  {
    var front, from := bits[..|bits| - width], Span(k, width);
    if k < count - 1 {
      GatherAt(front, count - 1, width, k);
      assert front[from..from + width] == bits[from..from + width];
    } else {
      assert bits[from..from + width] == bits[|bits| - width..];
    }
  }

  lemma {:induction false} SpreadSplit(a: seq<nat>, b: seq<nat>, width: nat)
    ensures Spread(a + b, width) == Spread(a, width) + Spread(b, width)
  {
    if b == [] {
      assert a + b == a;
    } else {
      var last := |b| - 1;
      assert (a + b)[..|a + b| - 1] == a + b[..last];
      SpreadSplit(a, b[..last], width);
      assert Spread(b, width) == Spread(b[..last], width) + BitsOf(b[last], width);
    }
  }

  lemma {:induction false} ZerosAreZero(n: nat)
    ensures NumberOf(Zeros(n)) == 0
  {
    if n > 0 {
      assert Zeros(n)[..n - 1] == Zeros(n - 1);
      ZerosAreZero(n - 1);
    }
  }
}
