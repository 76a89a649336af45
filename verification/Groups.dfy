/** Bytes as five-bit groups and back: two accumulator loops that undo each other. */
module Groups {
  import opened Outcomes
  import opened Powers
  import opened BitStrings

  // ---- What the loops compute

  function GroupCount(bits: nat): nat {
    (bits + 4) / 5
  }

  /** The bits, filled up to a multiple of five. */
  function PaddedGroups(bits: BitString): (padded: BitString)
    ensures |padded| == Span(GroupCount(|bits|), 5)
  {
    SpanIsProduct(GroupCount(|bits|), 5);
    bits + Zeros(5 * GroupCount(|bits|) - |bits|)
  }

  function ToGroups(bytes: seq<nat>): (groups: seq<nat>) {
    var bits := Spread(bytes, 8);
    Gather(PaddedGroups(bits), GroupCount(|bits|), 5)
  }

  /** The whole bytes of some bits, and the bits after them. */
  function WholeBytes(bits: BitString): (bytes: seq<nat>)
    ensures |bytes| == |bits| / 8
  {
    SpanIsProduct(|bits| / 8, 8);
    Gather(bits[..|bits| / 8 * 8], |bits| / 8, 8)
  }

  function Leftover(bits: BitString): (rest: BitString)
    ensures |rest| == |bits| % 8
  {
    bits[|bits| / 8 * 8..]
  }

  /** Reads back only what `ToGroups` can have written. */
  function FromGroups(groups: seq<nat>): Outcome<seq<nat>> {
    var bits := Spread(groups, 5);
    if |Leftover(bits)| >= 5 || NumberOf(Leftover(bits)) != 0 then Refuse(Malformed) else Accept(WholeBytes(bits))
  }

  // ---- The accumulator

  /** The low bits of an accumulator are the bits not written out yet. */
  ghost predicate Accumulates(accumulator: nat, left: BitString) {
    accumulator < 4096 && |left| <= 12 && accumulator % Pow2(|left|) == NumberOf(left)
  }

  lemma {:induction false} PowersOfTwo()
    ensures Pow2(0) == 1 && Pow2(1) == 2 && Pow2(2) == 4 && Pow2(3) == 8 && Pow2(4) == 16 && Pow2(5) == 32
            && Pow2(6) == 64
    ensures Pow2(7) == 128 && Pow2(8) == 256 && Pow2(9) == 512 && Pow2(10) == 1024 && Pow2(11) == 2048
            && Pow2(12) == 4096
  {
    assert Pow2(6) == 64;
  }

  lemma {:induction false} JoinedNumber(a: BitString, b: BitString)
    ensures NumberOf(a + b) == Times(NumberOf(a), Pow2(|b|)) + NumberOf(b)
  {
    if b == [] {
      assert a + b == a;
    } else {
      var last := |b| - 1;
      assert (a + b)[..|a + b| - 1] == a + b[..last];
      JoinedNumber(a, b[..last]);
      TimesFacts(NumberOf(a), Pow2(last), 2);
      TimesFacts(Pow2(last), 2, 0);
      assert Times(Times(NumberOf(a), Pow2(last)), 2) == 2 * Times(NumberOf(a), Pow2(last));
      assert Times(Pow2(last), 2) == Pow2(|b|);
    }
  }

  // Products are kept apart from the rest of the arithmetic, so that it stays linear.

  function Times(x: int, y: int): int {
    x * y
  }

  lemma {:induction false} TimesFacts(x: int, y: int, z: int)
    ensures Times(x, y) == Times(y, x) && Times(Times(x, y), z) == Times(x, Times(y, z))
    ensures Times(x + y, z) == Times(x, z) + Times(y, z)
    ensures Times(x, 1) == x
  {
  }

  lemma {:induction false} TimesInOrder(x: nat, y: nat, z: nat)
    requires x <= y
    ensures 0 <= Times(x, z) <= Times(y, z)
  {
  }

  lemma {:induction false} TimesPositive(x: nat, y: nat)
    requires x > 0 && y > 0
    ensures Times(x, y) > 0
  {
  }

  lemma {:induction false} PowersMultiply(m: nat, n: nat)
    ensures Pow2(m + n) == Times(Pow2(m), Pow2(n))
  {
    if m > 0 {
      PowersMultiply(m - 1, n);
    }
  }

  lemma {:induction false} Divides(x: nat, d: nat)
    requires d > 0
    ensures x == Times(d, x / d) + x % d
  {
  }

  lemma {:induction false} NotNegative(d: nat, q: int)
    requires d > 0 && q < 0
    ensures Times(d, q) <= -(d as int)
  {
  }

  lemma {:induction false} RemainderIs(x: nat, d: nat, q: int, r: nat)
    requires d > 0 && x == Times(d, q) + r && r < d
    ensures q >= 0 && x / d == q && x % d == r
  {
    if q < 0 {
      NotNegative(d, q);
      assert false;
    }
    Divides(x, d);
    QuotientIs(x, d, q, r);
  }

  /** Fewer than `d` of the multiples of `w`, and less than one more, is less than all of them. */
  lemma {:induction false} BelowProduct(n: nat, d: nat, x: nat, w: nat)
    requires n < d && x < w
    ensures Times(n, w) + x < Times(d, w)
  {
    TimesInOrder(n + 1, d, w);
    TimesFacts(n, 1, w);
    TimesFacts(w, 1, 1);
    hide Times;
  }

  /** A remainder by a multiple keeps the remainder. */
  lemma {:induction false} RemainderOfMultiple(y: nat, d: nat, k: nat)
    requires d > 0 && k > 0
    ensures Times(d, k) > 0 && y % Times(d, k) % d == y % d
  {
    TimesPositive(d, k);
    var m := Times(d, k);
    var t, z, q := y / m, y % m, y / d;
    Divides(y, m);
    Divides(y, d);
    TimesFacts(d, k, t);
    TimesFacts(q - Times(k, t), Times(k, t), d);
    TimesFacts(q, d, d);
    TimesFacts(Times(k, t), d, d);
    TimesFacts(q - Times(k, t), d, d);
    hide Times;
    RemainderIs(z, d, q - Times(k, t), y % d);
  }

  lemma {:induction false} ShiftIn(accumulator: nat, n: nat, l: nat, width: nat, x: nat)
    requires l + width <= 12 && accumulator % Pow2(l) == n && x < Pow2(width)
    ensures (Times(accumulator, Pow2(width)) + x) % 4096 % Pow2(l + width) == Times(n, Pow2(width)) + x
  {
    PowersMultiply(l, width);
    PowersMultiply(l + width, 12 - l - width);
    PowersOfTwo();
    var p, w := Pow2(l), Pow2(width);
    Divides(accumulator, p);
    var q := accumulator / p;
    TimesFacts(Times(p, q), n, w);
    TimesFacts(q, p, w);
    TimesFacts(p, q, 0);
    TimesFacts(q, Times(p, w), 0);
    TimesInOrder(0, accumulator, w);
    TimesInOrder(0, n, w);
    BelowProduct(n, p, x, w);
    hide Pow2, Times;
    RemainderIs(Times(accumulator, w) + x, Times(p, w), q, Times(n, w) + x);
    RemainderOfMultiple(Times(accumulator, w) + x, Times(p, w), Pow2(12 - l - width));
  }

  /** Shifting a number in appends its bits. */
  lemma {:induction false} TakesIn(accumulator: nat, left: BitString, x: nat, width: nat)
    requires Accumulates(accumulator, left) && x < Pow2(width) && |left| + width <= 12
    ensures Accumulates((accumulator * Pow2(width) + x) % 4096, left + BitsOf(x, width))
  {
    NumberOfBits(x, width);
    JoinedNumber(left, BitsOf(x, width));
    ShiftIn(accumulator, NumberOf(left), |left|, width, x);
    hide NumberOf, BitsOf, Pow2;
  }

  lemma {:induction false} Regroups(d: nat, w: nat, q: nat, high: nat)
    ensures Times(Times(d, w), q) + Times(high, d) == Times(d, Times(w, q) + high)
  {
    TimesFacts(d, w, q);
    TimesFacts(d, Times(w, q) + high, 0);
    TimesFacts(Times(w, q), high, d);
    TimesFacts(d, Times(w, q), 0);
    hide Times;
  }

  lemma {:induction false} SplitsAt(x: nat, d: nat, w: nat, q: nat, high: nat, low: nat)
    requires high < w && low < d && x == Times(Times(d, w), q) + Times(high, d) + low
    ensures x / d % w == high && x % d == low
  {
    Regroups(d, w, q, high);
    TimesInOrder(0, q, w);
    TimesFacts(w, q, 0);
    hide Times;
    RemainderIs(x, d, Times(w, q) + high, low);
    RemainderIs(Times(w, q) + high, w, q, high);
  }

  lemma {:induction false} Divided(x: nat, d: nat) returns (q: nat)
    requires d > 0
    ensures x == Times(d, q) + x % d
  {
    Divides(x, d);
    q := x / d;
  }

  lemma {:induction false} ShiftOut(x: nat, p: nat, d: nat, w: nat, high: nat, low: nat)
    requires p > 0 && p == Times(d, w) && high < w && low < d && x % p == Times(high, d) + low
    ensures x / d % w == high && x % d == low
  {
    var q := Divided(x, p);
    SplitsAt(x, d, w, q, high, low);
  }

  /** Shifting right and masking writes the highest bits out, and leaves the rest. */
  lemma {:induction false} WritesOut(accumulator: nat, left: BitString, width: nat)
    requires Accumulates(accumulator, left) && width <= |left|
    ensures accumulator / Pow2(|left| - width) % Pow2(width) == NumberOf(left[..width])
    ensures Accumulates(accumulator, left[width..])
  {
    var high, low := left[..width], left[width..];
    assert left == high + low;
    JoinedNumber(high, low);
    BitsOfNumber(high);
    BitsOfNumber(low);
    PowersMultiply(|left| - width, width);
    hide NumberOf, Pow2, BitsOf, Times;
    ShiftOut(accumulator, Pow2(|left|), Pow2(|left| - width), Pow2(width), NumberOf(high), NumberOf(low));
  }

  lemma {:induction false} ShiftUp(accumulator: nat, n: nat, l: nat)
    requires l <= 5 && accumulator % Pow2(l) == n
    ensures Times(accumulator, Pow2(5 - l)) % 32 == Times(n, Pow2(5 - l))
  {
    PowersMultiply(l, 5 - l);
    PowersOfTwo();
    var p, w := Pow2(l), Pow2(5 - l);
    var q := accumulator / p;
    Divides(accumulator, p);
    TimesFacts(Times(p, q), n, w);
    TimesFacts(q, p, w);
    TimesFacts(p, q, 0);
    TimesFacts(q, Times(p, w), 0);
    TimesInOrder(0, accumulator, w);
    TimesInOrder(0, n, w);
    BelowProduct(n, p, 0, w);
    hide Pow2, Times;
    RemainderIs(Times(accumulator, w), 32, q, Times(n, w));
  }

  /** The last group, zero padded. */
  lemma {:induction false} PadsLast(accumulator: nat, left: BitString)
    requires Accumulates(accumulator, left) && |left| < 5
    ensures accumulator * Pow2(5 - |left|) % 32 == NumberOf(left + Zeros(5 - |left|))
  {
    JoinedNumber(left, Zeros(5 - |left|));
    ZerosAreZero(5 - |left|);
    ShiftUp(accumulator, NumberOf(left), |left|);
    hide NumberOf, Pow2;
  }

  lemma {:induction false} AppendsNumber(numbers: seq<nat>, width: nat, bits: BitString)
    requires |bits| == width
    ensures Spread(numbers + [NumberOf(bits)], width) == Spread(numbers, width) + bits
    ensures NumberOf(bits) < Pow2(width)
  {
    SpreadSnoc(numbers, NumberOf(bits), width);
    BitsOfNumber(bits);
  }

  lemma {:induction false} AccumulatesNothing()
    ensures Accumulates(0, [])
  {
  }

  // ---- The loops

  /** `ToGroups`, through an accumulator that keeps twelve bits. */
  method BytesToGroups(bytes: seq<nat>) returns (groups: seq<nat>)
    requires Fit(bytes, 8)
    ensures groups == ToGroups(bytes)
  {
    PowersOfTwo();
    AccumulatesNothing();
    hide NumberOf, Pow2, BitsOf, Spread, Accumulates, Span, Gather;
    groups := [];
    var accumulator: nat, bits: nat := 0, 0;
    ghost var left: BitString := [];
    SpreadsNothing();
    for i := 0 to |bytes|
      invariant bits == |left| < 5 && Accumulates(accumulator, left)
      invariant Fit(groups, 5) && Spread(groups, 5) + left == Spread(bytes[..i], 8)
    {
      SpreadSnoc(bytes[..i], bytes[i], 8);
      assert bytes[..i + 1] == bytes[..i] + [bytes[i]];
      TakesIn(accumulator, left, bytes[i], 8);
      accumulator := (accumulator * 256 + bytes[i]) % 4096;
      left := left + BitsOf(bytes[i], 8);
      bits := bits + 8;
      while bits >= 5
        invariant bits == |left| <= 12 && Accumulates(accumulator, left)
        invariant Fit(groups, 5) && Spread(groups, 5) + left == Spread(bytes[..i + 1], 8)
      {
        WritesOut(accumulator, left, 5);
        AppendsNumber(groups, 5, left[..5]);
        assert Spread(groups, 5) + left == Spread(groups, 5) + left[..5] + left[5..];
        bits, left := bits - 5, left[5..];
        groups := groups + [accumulator / Pow2(bits) % 32];
      }
    }
    assert bytes[..|bytes|] == bytes;
    ghost var written := groups;
    if bits > 0 {
      PadsLast(accumulator, left);
      AppendsNumber(groups, 5, left + Zeros(5 - |left|));
      groups := groups + [accumulator * Pow2(5 - bits) % 32];
    }
    GroupsArePadded(written, left, groups, Spread(bytes, 8));
  }

  lemma {:induction false} SpreadsNothing()
    ensures Spread([], 5) == [] && Spread([], 8) == []
  {
  }

  lemma {:induction false} GroupsArePadded(written: seq<nat>, left: BitString, groups: seq<nat>, all: BitString)
    requires Spread(written, 5) + left == all && |left| < 5 && Fit(groups, 5)
    requires if left == [] then groups == written
             else |groups| == |written| + 1 && Spread(groups, 5) == Spread(written, 5) + (left + Zeros(5 - |left|))
    ensures groups == Gather(PaddedGroups(all), GroupCount(|all|), 5)
  {
    SpanIsProduct(|written|, 5);
    SpanIsProduct(|groups|, 5);
    assert GroupCount(|all|) == |groups|;
    assert PaddedGroups(all) == Spread(groups, 5);
    GatherSpread(groups, 5);
  }

  /** `FromGroups`, through the same accumulator. */
  method GroupsToBytes(groups: seq<nat>) returns (r: Outcome<seq<nat>>)
    requires Fit(groups, 5)
    ensures r == FromGroups(groups)
  {
    PowersOfTwo();
    AccumulatesNothing();
    SpreadsNothing();
    hide NumberOf, Pow2, BitsOf, Spread, Span, Gather;
    var bytes: seq<nat> := [];
    var accumulator: nat, bits: nat := 0, 0;
    ghost var left: BitString := [];
    for i := 0 to |groups|
      invariant bits == |left| < 8 && Accumulates(accumulator, left)
      invariant Fit(bytes, 8) && Spread(bytes, 8) + left == Spread(groups[..i], 5)
    {
      SpreadSnoc(groups[..i], groups[i], 5);
      assert groups[..i + 1] == groups[..i] + [groups[i]];
      TakesIn(accumulator, left, groups[i], 5);
      accumulator := (accumulator * 32 + groups[i]) % 4096;
      left := left + BitsOf(groups[i], 5);
      bits := bits + 5;
      if bits >= 8 {
        WritesOut(accumulator, left, 8);
        AppendsNumber(bytes, 8, left[..8]);
        assert Spread(bytes, 8) + left == Spread(bytes, 8) + left[..8] + left[8..];
        bits, left := bits - 8, left[8..];
        bytes := bytes + [accumulator / Pow2(bits) % 256];
      }
    }
    assert groups[..|groups|] == groups;
    BytesAreWhole(bytes, left, Spread(groups, 5));
    if bits >= 5 || accumulator % Pow2(bits) != 0 {
      return Refuse(Malformed);
    }
    r := Accept(bytes);
  }

  lemma {:induction false} BytesAreWhole(bytes: seq<nat>, left: BitString, all: BitString)
    requires Spread(bytes, 8) + left == all && |left| < 8 && Fit(bytes, 8)
    ensures WholeBytes(all) == bytes && Leftover(all) == left
  {
    SpanIsProduct(|bytes|, 8);
    assert |all| / 8 == |bytes|;
    assert all[..|bytes| * 8] == Spread(bytes, 8);
    GatherSpread(bytes, 8);
  }

  // ---- They undo each other

  lemma {:induction false} NothingLeft(rest: BitString)
    requires NumberOf(rest) == 0
    ensures rest == Zeros(|rest|)
  {
    if rest != [] {
      NothingLeft(rest[..|rest| - 1]);
      assert rest == rest[..|rest| - 1] + [rest[|rest| - 1]];
    }
  }

  /** Every byte string comes back from its groups. */
  lemma {:induction false} BytesComeBack(bytes: seq<nat>)
    requires Fit(bytes, 8)
    ensures Fit(ToGroups(bytes), 5) && FromGroups(ToGroups(bytes)) == Accept(bytes)
  {
    var bits := Spread(bytes, 8);
    var padding := Zeros(5 * GroupCount(|bits|) - |bits|);
    SpreadGather(PaddedGroups(bits), GroupCount(|bits|), 5);
    SpanIsProduct(|bytes|, 8);
    ZerosAreZero(|padding|);
    BytesAreWhole(bytes, padding, PaddedGroups(bits));
  }

  /** And every group string that is read is the one its bytes are written as. */
  lemma {:induction false} GroupsComeBack(groups: seq<nat>)
    requires Fit(groups, 5) && FromGroups(groups).Accept?
    ensures Fit(FromGroups(groups).value, 8) && ToGroups(FromGroups(groups).value) == groups
  {
    var bits, bytes := Spread(groups, 5), FromGroups(groups).value;
    var rest := Leftover(bits);
    NothingLeft(rest);
    SpanIsProduct(|bytes|, 8);
    SpanIsProduct(|groups|, 5);
    SpreadGather(bits[..|bits| / 8 * 8], |bits| / 8, 8);
    assert Spread(bytes, 8) + rest == bits;
    assert GroupCount(|Spread(bytes, 8)|) == |groups|;
    assert PaddedGroups(Spread(bytes, 8)) == bits;
    GatherSpread(groups, 5);
  }
}
