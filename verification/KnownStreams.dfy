/** Streams known byte by byte: what the coder writes for nothing, for one
    byte and for a byte again, whichever way its shares round. */
module KnownStreams {
  import opened Powers
  import opened BitStrings
  import opened Scaling
  import opened Coding
  import opened Coder

  // ---- Shares that are nearly exact

  /** No share is more than two below, or more than one above, its exact part of the width. */
  ghost predicate IsNear(share: Share) {
    forall width: nat, part: nat, total: nat :: QUARTER <= width <= FULL && part <= total && 0 < total <= MAX_TOTAL ==>
      width * part - 2 * total <= share(width, part, total) * total <= width * part + total
  }

  lemma {:induction false} ProductOfQuotient(width: nat, part: nat, total: nat)
    requires 0 < total
    ensures Scaling.Times(Scaling.Times(width as real, part as real / total as real), total as real)
            == (width * part) as real
  {
    var w, p, t := width as real, part as real, total as real;
    assert p / t * t == p;
    assert w * (p / t) * t == w * (p / t * t);
    assert w * p == (width * part) as real;
  }

  lemma {:induction false} WholeProduct(a: int, b: int)
    ensures (a * b) as real == Scaling.Times(a as real, b as real)
  {
  }

  lemma {:induction false} FloorIsNear(x: real, low: real, total: nat, product: nat)
    requires 0 < total && Scaling.Times(low, total as real) == product as real
    requires 0.0 <= x && low - 0.125 <= x <= low + 0.125
    ensures product - 2 * total <= x.Floor * total <= product + total
  {
    var floor, t := x.Floor as real, total as real;
    assert low - 2.0 <= floor <= low + 1.0;
    Scaling.TimesInOrder(t, low - 2.0, floor);
    Scaling.TimesInOrder(t, floor, low + 1.0);
    Spreads(low, t);
    WholeProduct(x.Floor, total);
    hide Scaling.Times;
    assert (product - 2 * total) as real <= (x.Floor * total) as real <= (product + total) as real;
  }

  lemma {:induction false} Spreads(low: real, t: real)
    ensures Scaling.Times(low - 2.0, t) == Scaling.Times(low, t) - 2.0 * t
    ensures Scaling.Times(low + 1.0, t) == Scaling.Times(low, t) + t
  {
  }

  /** Shares in floating point are, whatever the rounding's ties. */
  lemma {:induction false} FloatsAreNear(round: real -> real)
    requires Rounds(round)
    ensures IsNear(RoundedShare(round))
  {
    hide Rounds, Product, Scaling.Times;
    forall width: nat, part: nat, total: nat | QUARTER <= width <= FULL && part <= total && 0 < total <= MAX_TOTAL
      ensures var share := RoundedShare(round)(width, part, total);
              width * part - 2 * total <= share * total <= width * part + total
    {
      if part == 0 {
        NothingIsNothing(round, width, total);
        assert width * part == 0 && 0 * total == 0;
      } else {
        RoundedIsClose(round, width, part, total);
        ProductOfQuotient(width, part, total);
        FloorIsNear(Product(round, width, part, total), Scaling.Times(width as real, part as real / total as real),
          total,
                    width * part);
      }
    }
  }

  // ---- Steps that stay in one half

  /** A number doubled so often. */
  function Grown(x: nat, doublings: nat): nat
    decreases doublings
  {
    if doublings == 0 then x else Grown(2 * x, doublings - 1)
  }

  lemma {:induction false} GrownBySteps(x: nat)
    ensures Grown(x, 0) == x && Grown(x, 1) == 2 * x && Grown(x, 5) == 32 * x
    ensures Grown(x, 6) == 64 * x && Grown(x, 7) == 128 * x && Grown(x, 8) == 256 * x
  {
    GrownFour(2 * x);
    GrownFour(4 * x);
    GrownFour(8 * x);
    GrownFour(16 * x);
    assert Grown(x, 5) == Grown(2 * x, 4);
    assert Grown(x, 6) == Grown(2 * x, 5) == Grown(4 * x, 4);
    assert Grown(x, 7) == Grown(2 * x, 6) == Grown(4 * x, 5) == Grown(8 * x, 4);
    assert Grown(x, 8) == Grown(2 * x, 7) == Grown(4 * x, 6) == Grown(8 * x, 5) == Grown(16 * x, 4);
  }

  lemma {:induction false} GrownFour(x: nat)
    ensures Grown(x, 4) == 16 * x
  {
    assert Grown(x, 4) == Grown(2 * x, 3) == Grown(4 * x, 2) == Grown(8 * x, 1) == Grown(16 * x, 0);
  }

  lemma {:induction false} GrownInOrder(x: nat, y: nat, doublings: nat)
    requires x < y
    ensures Grown(x, doublings) < Grown(y, doublings) && y <= Grown(y, doublings)
    decreases doublings
  {
    if doublings > 0 {
      GrownInOrder(2 * x, 2 * y, doublings - 1);
    }
  }

  /** A range so close to the top that it stays in the upper half this often. */
  lemma {:induction false} TopHalves(
    share: Share, counts: Counts, symbols: seq<nat>, far: nat, near: nat, doublings: nat)
    requires Shares(share) && IsModel(counts, |symbols|) && AreSymbols(symbols)
    requires near < far && doublings > 0 && Grown(far, doublings - 1) < HALF
    ensures far < HALF && Grown(near, doublings) < Grown(far, doublings) < FULL
    ensures Narrowed(share, counts, Range(FULL - far, FULL - near), symbols)
            == Repeated(true, doublings)
               + Narrowed(share, counts, Range(FULL - Grown(far, doublings), FULL - Grown(near, doublings)), symbols)
    decreases doublings
  {
    hide Shares, IsModel, Coded;
    GrownInOrder(near, far, doublings - 1);
    var next := Range(FULL - 2 * far, FULL - 2 * near);
    assert Doubled(Range(FULL - far, FULL - near), HALF) == next;
    if doublings > 1 {
      TopHalves(share, counts, symbols, 2 * far, 2 * near, doublings - 1);
      assert Repeated(true, doublings) == [true] + Repeated(true, doublings - 1);
    } else {
      assert Grown(far, 1) == 2 * far && Grown(near, 1) == 2 * near;
      assert Repeated(true, 1) == [true];
    }
  }

  /** A range so close to the bottom that it stays in the lower half this often. */
  lemma {:induction false} BottomHalves(
    share: Share, counts: Counts, symbols: seq<nat>, low: nat, high: nat, doublings: nat)
    requires Shares(share) && IsModel(counts, |symbols|) && AreSymbols(symbols)
    requires low < high && doublings > 0 && Grown(high, doublings - 1) < HALF
    ensures high < HALF && Grown(low, doublings) < Grown(high, doublings) < FULL
    ensures Narrowed(share, counts, Range(low, high), symbols)
            == Repeated(false, doublings)
               + Narrowed(share, counts, Range(Grown(low, doublings), Grown(high, doublings)), symbols)
    decreases doublings
  {
    hide Shares, IsModel, Coded;
    GrownInOrder(low, high, doublings - 1);
    assert Doubled(Range(low, high), 0) == Range(2 * low, 2 * high);
    if doublings > 1 {
      BottomHalves(share, counts, symbols, 2 * low, 2 * high, doublings - 1);
      assert Repeated(false, doublings) == [false] + Repeated(false, doublings - 1);
    } else {
      assert Grown(low, 1) == 2 * low && Grown(high, 1) == 2 * high;
      assert Repeated(false, 1) == [false];
    }
  }

  /** A range that touches both halves and starts low ends in two bits. */
  lemma {:induction false} Ends(share: Share, counts: Counts, r: Range)
    requires Shares(share) && IsModel(counts, 0) && InFull(r) && r.low <= QUARTER && r.high >= HALF
    ensures Narrowed(share, counts, r, []) == [false, true]
  {
  }

  lemma {:induction false} PacksTo(bits: BitString, bytes: seq<nat>)
    requires AreBytes(bytes) && 8 * |bytes| - 8 < |bits| <= 8 * |bytes|
    requires bits + Zeros(8 * |bytes| - |bits|) == Spread(bytes, 8)
    ensures Packed(bits) == bytes
  {
    hide Spread, Gather, Span;
    SpanIsProduct(|bytes|, 8);
    WindowPads(bits, 8 * |bytes|);
    assert Pow2(8) == 256;
    GatherSpread(bytes, 8);
  }

  // ---- The streams

  lemma {:induction false} FirstSums()
    ensures IsModel(FirstCounts(), 1000) && TotalCount(FirstCounts()) == 257
    ensures forall s :: 0 <= s <= 257 ==> SumTo(FirstCounts(), s) == s
  {
    FirstIsModel(1000);
    forall s | 0 <= s <= 257
      ensures SumTo(FirstCounts(), s) == s
    {
      FirstSum(s);
    }
  }

  lemma {:induction false} NearAt(share: Share, width: nat, part: nat, total: nat)
    requires Shares(share) && IsNear(share) && QUARTER <= width <= FULL && part <= total && 0 < total <= MAX_TOTAL
    ensures width * part - 2 * total <= share(width, part, total) * total <= width * part + total
    ensures share(width, 0, total) == 0 && share(width, total, total) == width
  {
  }

  lemma {:induction false} NothingIsCoded(share: Share)
    requires Shares(share) && IsNear(share)
    ensures CodedData(share, []) == Repeated(true, 8) + [false, true]
  {
    hide Shares, IsNear, SumTo, Grown;
    FirstSums();
    NearAt(share, FULL, 256, 257);
    var low := share(FULL, 256, 257);
    var far: nat := FULL - low;
    GrownBySteps(far);
    GrownBySteps(0);
    var symbols: seq<nat> := [] + [END_OF_DATA];
    assert symbols == [END_OF_DATA] && symbols[1..] == [];
    assert CodedData(share, []) == Coded(share, FirstCounts(), FULL_RANGE, symbols);
    assert SubRange(share, FirstCounts(), FULL_RANGE, 256) == Range(FULL - far, FULL);
    TopHalves(share, FirstCounts(), [], far, 0, 8);
    Ends(share, FirstCounts(), Range(FULL - 256 * far, FULL));
  }

  /** Nothing is written as 0xff 0x40. */
  lemma {:induction false} NothingIsWritten(share: Share)
    requires Shares(share) && IsNear(share)
    ensures Packed(CodedData(share, [])) == [0xff, 0x40]
  {
    NothingIsCoded(share);
    hide Shares, IsNear, CodedData, Spread;
    ByteBits();
    TwoBytes(0xff, 0x40);
    PacksTo(Repeated(true, 8) + [false, true], [0xff, 0x40]);
  }

  /** One count more: the sums past the symbol rise by one. */
  lemma {:induction false} SumsAfter(counts: Counts, symbol: nat)
    requires |counts| == SYMBOLS && symbol < END_OF_DATA
    ensures forall n :: 0 <= n <= SYMBOLS ==>
            SumTo(Counted(counts, symbol), n) == SumTo(counts, n) + if symbol < n then 1 else 0
    ensures TotalCount(Counted(counts, symbol)) == TotalCount(counts) + 1
  {
    forall n | 0 <= n <= SYMBOLS
      ensures SumTo(Counted(counts, symbol), n) == SumTo(counts, n) + if symbol < n then 1 else 0
    {
      CountedSums(counts, symbol, n);
    }
  }

  lemma {:induction false} CodesOne(share: Share, counts: Counts, r: Range, symbols: seq<nat>, sub: Range)
    requires Shares(share) && IsModel(counts, |symbols|) && Settled(r) && AreSymbols(symbols) && symbols != []
    requires sub == SubRange(share, counts, r, symbols[0])
    ensures IsModel(Counted(counts, symbols[0]), |symbols| - 1) && InFull(sub)
    ensures Coded(share, counts, r, symbols) == Narrowed(share, Counted(counts, symbols[0]), sub, symbols[1..])
  {
    CountedIsModel(counts, symbols[0], |symbols| - 1);
    SubRangeInside(share, counts, r, symbols[0]);
    hide Narrowed, Shares, IsModel;
  }

  /** A settled range goes on with the next symbol. */
  lemma {:induction false} Continues(share: Share, counts: Counts, r: Range, symbols: seq<nat>)
    requires Shares(share) && IsModel(counts, |symbols|) && InFull(r) && AreSymbols(symbols) && r.low <= QUARTER
             && r.high >= HALF
    ensures Settled(r) && Narrowed(share, counts, r, symbols) == Coded(share, counts, r, symbols)
  {
    hide Shares, IsModel, Coded;
  }

  /** The first zero byte: eight bits, and the range left. */
  lemma {:induction false} ZeroIsCoded(share: Share, symbols: seq<nat>) returns (high: nat)
    requires Shares(share) && IsNear(share) && AreSymbols(symbols) && 0 < |symbols| < 10 && symbols[0] == 0
    ensures IsModel(FirstCounts(), |symbols|) && IsModel(Counted(FirstCounts(), 0), |symbols| - 1)
    ensures FULL * 256 - 131584 <= high * 257 <= FULL * 256 + 65792 && Settled(Range(0, high))
    ensures Coded(share, FirstCounts(), FULL_RANGE, symbols)
            == Repeated(false, 8) + Coded(share, Counted(FirstCounts(), 0), Range(0, high), symbols[1..])
  {
    hide Shares, IsNear, SumTo, Grown, Coded;
    FirstSums();
    NearAt(share, FULL, 1, 257);
    var h := share(FULL, 1, 257);
    GrownBySteps(h);
    GrownBySteps(0);
    high := 256 * h;
    CodesOne(share, FirstCounts(), FULL_RANGE, symbols, Range(0, h));
    hide IsModel;
    BottomHalves(share, Counted(FirstCounts(), 0), symbols[1..], 0, h, 8);
    Continues(share, Counted(FirstCounts(), 0), Range(0, high), symbols[1..]);
  }

  lemma {:induction false} ZeroThenEnd(share: Share)
    requires Shares(share) && IsNear(share)
    ensures CodedData(share, [0]) == Repeated(false, 8) + (Repeated(true, 7) + [false, true])
  {
    hide Shares, IsNear, SumTo, Coded, IsModel;
    var high := ZeroIsCoded(share, [0, END_OF_DATA]);
    FirstSums();
    SumsAfter(FirstCounts(), 0);
    var counts := Counted(FirstCounts(), 0);
    NearAt(share, high, 257, 258);
    var low := share(high, 257, 258);
    assert [0] + [END_OF_DATA] == [0, END_OF_DATA];
    assert [0, END_OF_DATA][1..] == [END_OF_DATA];
    ZeroEnds(share, counts, high, low);
  }

  lemma {:induction false} ZeroEnds(share: Share, counts: Counts, high: nat, low: nat)
    requires Shares(share) && IsModel(counts, 1) && Settled(Range(0, high))
    requires SubRange(share, counts, Range(0, high), END_OF_DATA) == Range(low, high)
    requires 9961 * FULL <= 10000 * high <= 9962 * FULL && high * 257 - 516 <= low * 258 <= high * 257 + 258
    ensures Coded(share, counts, Range(0, high), [END_OF_DATA]) == Repeated(true, 7) + [false, true]
  {
    hide Shares, Grown, Coded, IsModel, SubRange;
    var far: nat, near: nat := FULL - low, FULL - high;
    GrownBySteps(far);
    GrownBySteps(near);
    assert [END_OF_DATA][1..] == [];
    CodesOne(share, counts, Range(0, high), [END_OF_DATA], Range(low, high));
    NoRoomNeeded(counts);
    TopHalves(share, counts, [], far, near, 7);
    Ends(share, counts, Range(FULL - 128 * far, FULL - 128 * near));
  }

  /** One zero byte is written as 0x00 0xfe 0x80. */
  lemma {:induction false} ZeroIsWritten(share: Share)
    requires Shares(share) && IsNear(share)
    ensures Packed(CodedData(share, [0])) == [0x00, 0xfe, 0x80]
  {
    ZeroThenEnd(share);
    hide Shares, IsNear, CodedData, Spread;
    ByteBits();
    ThreeBytes(0x00, 0xfe, 0x80);
    PacksTo(Repeated(false, 8) + (Repeated(true, 7) + [false, true]), [0x00, 0xfe, 0x80]);
  }

  /** The model adapts: a zero byte again takes seven bits, not eight, and the two are written as 0x00 0x01 0xf9. */
  lemma {:induction false} ZerosAreCoded(share: Share)
    requires Shares(share) && IsNear(share)
    ensures CodedData(share, [0, 0])
            == Repeated(false, 8) + (Repeated(false, 7) + (Repeated(true, 6) + (Repeated(false, 1) + [false, true])))
  {
    hide Shares, IsNear, SumTo, Grown, Coded;
    var high := ZeroIsCoded(share, [0, 0, END_OF_DATA]);
    FirstSums();
    SumsAfter(FirstCounts(), 0);
    var counts := Counted(FirstCounts(), 0);
    SumsAfter(counts, 0);
    NearAt(share, high, 2, 258);
    var h := share(high, 2, 258);
    var width: nat := 128 * h;
    NearAt(share, width, 258, 259);
    var low := share(width, 258, 259);
    GrownBySteps(0);
    GrownBySteps(h);
    assert [0, 0] + [END_OF_DATA] == [0, 0, END_OF_DATA] && [0, 0, END_OF_DATA][1..] == [0, END_OF_DATA];
    assert [0, END_OF_DATA][1..] == [END_OF_DATA] && [END_OF_DATA][1..] == [];
    CodesOne(share, counts, Range(0, high), [0, END_OF_DATA], Range(0, h));
    BottomHalves(share, Counted(counts, 0), [END_OF_DATA], 0, h, 7);
    Continues(share, Counted(counts, 0), Range(0, width), [END_OF_DATA]);
    LastEnds(share, Counted(counts, 0), width, low);
  }

  lemma {:induction false} LastEnds(share: Share, counts: Counts, width: nat, low: nat)
    requires Shares(share) && IsModel(counts, 1) && Settled(Range(0, width))
    requires SubRange(share, counts, Range(0, width), END_OF_DATA) == Range(low, width)
    requires 98838 * FULL <= 100000 * width <= 98840 * FULL && 258 * width - 518 <= low * 259 <= 258 * width + 259
    ensures Coded(share, counts, Range(0, width), [END_OF_DATA])
            == Repeated(true, 6) + (Repeated(false, 1) + [false, true])
  {
    hide Shares, Grown, Coded, IsModel, SubRange;
    var far: nat, near: nat := FULL - low, FULL - width;
    GrownBySteps(far);
    GrownBySteps(near);
    var from: nat, to: nat := FULL - 64 * far, FULL - 64 * near;
    GrownBySteps(from);
    GrownBySteps(to);
    assert [END_OF_DATA][1..] == [];
    CodesOne(share, counts, Range(0, width), [END_OF_DATA], Range(low, width));
    NoRoomNeeded(counts);
    TopHalves(share, counts, [], far, near, 6);
    BottomHalves(share, counts, [], from, to, 1);
    Ends(share, counts, Range(2 * from, 2 * to));
  }

  lemma {:induction false} NoRoomNeeded(counts: Counts)
    requires IsModel(counts, 1)
    ensures IsModel(counts, 0)
  {
  }

  lemma {:induction false} ZerosAreWritten(share: Share)
    requires Shares(share) && IsNear(share)
    ensures Packed(CodedData(share, [0, 0])) == [0x00, 0x01, 0xf9]
  {
    ZerosAreCoded(share);
    hide Shares, IsNear, CodedData, Spread;
    ByteBits();
    ThreeBytes(0x00, 0x01, 0xf9);
    PacksTo(Repeated(false, 8) + (Repeated(false, 7) + (Repeated(true, 6) + (Repeated(false, 1) + [false, true]))),
            [0x00, 0x01, 0xf9]);
  }

  /** The highest byte first: seven bits, and how far from the top the range left begins and ends. */
  lemma {:induction false} HighestStarts(share: Share) returns (far: nat, near: nat)
    requires Shares(share) && IsNear(share)
    ensures 2 * FULL - 257 <= far * 257 <= 2 * FULL + 514 && FULL - 257 <= near * 257 <= FULL + 514
    ensures IsModel(Counted(FirstCounts(), 255), 1) && Settled(Range(FULL - 128 * far, FULL - 128 * near))
    ensures CodedData(share, [255])
            == Repeated(true, 7)
               + Coded(share, Counted(FirstCounts(), 255), Range(FULL - 128 * far, FULL - 128 * near), [END_OF_DATA])
  {
    hide Shares, IsNear, SumTo, Grown, Coded;
    FirstSums();
    NearAt(share, FULL, 255, 257);
    NearAt(share, FULL, 256, 257);
    var low, high := share(FULL, 255, 257), share(FULL, 256, 257);
    far, near := FULL - low, FULL - high;
    GrownBySteps(far);
    GrownBySteps(near);
    assert [255] + [END_OF_DATA] == [255, END_OF_DATA] && [255, END_OF_DATA][1..] == [END_OF_DATA];
    assert CodedData(share, [255]) == Coded(share, FirstCounts(), FULL_RANGE, [255, END_OF_DATA]);
    CodesOne(share, FirstCounts(), FULL_RANGE, [255, END_OF_DATA], Range(low, high));
    hide IsModel;
    TopHalves(share, Counted(FirstCounts(), 255), [END_OF_DATA], far, near, 7);
    Continues(share, Counted(FirstCounts(), 255), Range(FULL - 128 * far, FULL - 128 * near), [END_OF_DATA]);
  }

  lemma {:induction false} HighestIsCoded(share: Share)
    requires Shares(share) && IsNear(share)
    ensures CodedData(share, [255]) == Repeated(true, 7) + (Repeated(true, 1) + (Repeated(false, 8) + [false, true]))
  {
    hide Shares, IsNear, SumTo, Grown, Coded, IsModel, CodedData;
    var far, near := HighestStarts(share);
    FirstSums();
    SumsAfter(FirstCounts(), 255);
    var counts := Counted(FirstCounts(), 255);
    var width: nat := 128 * far - 128 * near;
    NearAt(share, width, 257, 258);
    HighestEnds(share, counts, far, near, share(width, 257, 258));
  }

  lemma {:induction false} HighestEnds(share: Share, counts: Counts, far: nat, near: nat, part: nat)
    requires Shares(share) && IsModel(counts, 1)
    requires 2 * FULL - 257 <= far * 257 <= 2 * FULL + 514 && FULL - 257 <= near * 257 <= FULL + 514
    requires (128 * far - 128 * near) * 257 - 516 <= part * 258 <= (128 * far - 128 * near) * 257 + 258
    requires Settled(Range(FULL - 128 * far, FULL - 128 * near))
    requires SubRange(share, counts, Range(FULL - 128 * far, FULL - 128 * near), END_OF_DATA)
             == Range(FULL - 128 * far + part, FULL - 128 * near)
    ensures Coded(share, counts, Range(FULL - 128 * far, FULL - 128 * near), [END_OF_DATA])
            == Repeated(true, 1) + (Repeated(false, 8) + [false, true])
  {
    hide Shares, Grown, Coded, IsModel, SubRange;
    var r := Range(FULL - 128 * far, FULL - 128 * near);
    var a: nat, b: nat := 128 * far - part, 128 * near;
    GrownBySteps(a);
    GrownBySteps(b);
    var low: nat, high: nat := FULL - 2 * a, FULL - 2 * b;
    GrownBySteps(low);
    GrownBySteps(high);
    assert [END_OF_DATA][1..] == [];
    CodesOne(share, counts, r, [END_OF_DATA], Range(FULL - a, FULL - b));
    NoRoomNeeded(counts);
    TopHalves(share, counts, [], a, b, 1);
    BottomHalves(share, counts, [], low, high, 8);
    Ends(share, counts, Range(256 * low, 256 * high));
  }

  /** One 0xff byte is written as 0xff 0x00 0x40. */
  lemma {:induction false} HighestIsWritten(share: Share)
    requires Shares(share) && IsNear(share)
    ensures Packed(CodedData(share, [255])) == [0xff, 0x00, 0x40]
  {
    HighestIsCoded(share);
    hide Shares, IsNear, CodedData, Spread;
    ByteBits();
    ThreeBytes(0xff, 0x00, 0x40);
    PacksTo(Repeated(true, 7) + (Repeated(true, 1) + (Repeated(false, 8) + [false, true])), [0xff, 0x00, 0x40]);
  }

  /** In floating point, whatever its ties: the streams of nothing, of
      one byte, lowest and highest, and of one byte twice. */
  lemma {:induction false} KnownInFloats(round: real -> real)
    requires Rounds(round)
    ensures Shares(RoundedShare(round))
    ensures Packed(CodedData(RoundedShare(round), [])) == [0xff, 0x40]
    ensures Packed(CodedData(RoundedShare(round), [0])) == [0x00, 0xfe, 0x80]
    ensures Packed(CodedData(RoundedShare(round), [255])) == [0xff, 0x00, 0x40]
    ensures Packed(CodedData(RoundedShare(round), [0, 0])) == [0x00, 0x01, 0xf9]
  {
    hide Rounds, Shares, IsNear, CodedData, Packed;
    FloatsShare(round);
    FloatsAreNear(round);
    NothingIsWritten(RoundedShare(round));
    ZeroIsWritten(RoundedShare(round));
    HighestIsWritten(RoundedShare(round));
    ZerosAreWritten(RoundedShare(round));
  }

  // ---- Bytes and their bits

  lemma {:induction false} TwoBytes(a: nat, b: nat)
    ensures Spread([a, b], 8) == BitsOf(a, 8) + BitsOf(b, 8)
  {
    hide BitsOf;
    SpreadSnoc([], a, 8);
    SpreadSnoc([a], b, 8);
    assert [] + [a] == [a] && [a] + [b] == [a, b];
    assert Spread([], 8) == [];
  }

  lemma {:induction false} ThreeBytes(a: nat, b: nat, c: nat)
    ensures Spread([a, b, c], 8) == BitsOf(a, 8) + BitsOf(b, 8) + BitsOf(c, 8)
  {
    hide BitsOf;
    TwoBytes(a, b);
    SpreadSnoc([a, b], c, 8);
    assert [a, b] + [c] == [a, b, c];
  }

  lemma {:induction false} OneByte(byte: nat, bits: BitString)
    requires byte < 256 && |bits| == 8
    requires byte == Weight(bits[7]) + 2 * Weight(bits[6]) + 4 * Weight(bits[5]) + 8 * Weight(bits[4])
             + 16 * Weight(bits[3])
                     + 32 * Weight(bits[2]) + 64 * Weight(bits[1]) + 128 * Weight(bits[0])
    ensures BitsOf(byte, 8) == bits
  {
    hide BitsOf, NumberOf;
    assert bits[..8] == bits;
    NumberOfPrefix(bits, 7);
    NumberOfPrefix(bits, 6);
    NumberOfPrefix(bits, 5);
    NumberOfPrefix(bits, 4);
    NumberOfPrefix(bits, 3);
    NumberOfPrefix(bits, 2);
    NumberOfPrefix(bits, 1);
    NumberOfPrefix(bits, 0);
    NumberOfNone(bits);
    BitsOfNumber(bits);
  }

  lemma {:induction false} NumberOfPrefix(bits: BitString, k: nat)
    requires k < |bits|
    ensures NumberOf(bits[..k + 1]) == 2 * NumberOf(bits[..k]) + Weight(bits[k])
  {
    assert bits[..k + 1][..k] == bits[..k];
  }

  lemma {:induction false} NumberOfNone(bits: BitString)
    ensures NumberOf(bits[..0]) == 0
  {
  }

  lemma {:induction false} ByteBits()
    ensures BitsOf(0xff, 8) == Repeated(true, 8) && BitsOf(0x00, 8) == Repeated(false, 8)
    ensures BitsOf(0x40, 8) == [false, true, false, false, false, false, false, false]
    ensures BitsOf(0x80, 8) == [true, false, false, false, false, false, false, false]
    ensures BitsOf(0xfe, 8) == Repeated(true, 7) + [false]
    ensures BitsOf(0x01, 8) == Repeated(false, 7) + [true]
    ensures BitsOf(0xf9, 8) == Repeated(true, 5) + [false, false, true]
  {
    hide BitsOf;
    OneByte(0xff, Repeated(true, 8));
    OneByte(0x00, Repeated(false, 8));
    OneByte(0x40, [false, true, false, false, false, false, false, false]);
    OneByte(0x80, [true, false, false, false, false, false, false, false]);
    OneByte(0xfe, Repeated(true, 7) + [false]);
    OneByte(0x01, Repeated(false, 7) + [true]);
    OneByte(0xf9, Repeated(true, 5) + [false, false, true]);
  }
}
