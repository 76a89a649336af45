/** What the coder writes, the decoder reads back: the value stays in the range, and the padding always suffices. */
module CodingRoundTrip {
  import opened Outcomes
  import opened Powers
  import opened BitStrings
  import opened Scaling
  import opened Coding

  /** The decoder's value: the first 48 bits, zeros past the end. */
  function ValueOf(bits: BitString): nat {
    NumberOf(Window(bits, PRECISION))
  }

  // ---- Windows

  lemma {:induction false} WindowSnoc(bits: BitString, n: nat)
    ensures NumberOf(Window(bits, n + 1)) == 2 * NumberOf(Window(bits, n)) + Weight(At(bits, n))
  {
    assert Window(bits, n + 1)[..n] == Window(bits, n);
  }

  lemma {:induction false} WindowCons(bit: bool, bits: BitString, n: nat)
    ensures NumberOf(Window([bit] + bits, n + 1)) == Weight(bit) * Pow2(n) + NumberOf(Window(bits, n))
  {
    assert Window([bit] + bits, n + 1) == [bit] + Window(bits, n);
    LeadingBit(bit, Window(bits, n));
  }

  /** A bit in front: the value is half the rest's, in the half the bit names. */
  lemma {:induction false} ValueOfFront(bit: bool, bits: BitString)
    ensures ValueOf(bits) == (ValueOf([bit] + bits) - Weight(bit) * HALF) * 2 + Weight(At([bit] + bits, PRECISION))
  {
    PowersHere();
    WindowCons(bit, bits, 47);
    WindowSnoc(bits, 47);
    hide Window, NumberOf, Pow2;
  }

  /** A bit and its opposite in front of the rest: the value is half the rest's, from the first quarter on. */
  lemma {:induction false} ValueOfOwing(bits: BitString)
    requires |bits| >= 2
    ensures ValueOf(bits) == (ValueOf(Owing(bits, 1)) - QUARTER) * 2 + Weight(At(Owing(bits, 1), PRECISION))
  {
    PowersHere();
    var rest := bits[1..];
    assert bits == [bits[0]] + rest;
    assert Owing(bits, 1) == [bits[0]] + ([!bits[0]] + rest);
    WindowCons(bits[0], [!bits[0]] + rest, 47);
    WindowCons(!bits[0], rest, 46);
    WindowCons(bits[0], rest, 46);
    WindowSnoc(bits, 47);
    assert At(Owing(bits, 1), 48) == At(bits, 47);
    hide Window, NumberOf, Pow2, Owing, At;
  }

  /** Two final bits land in the last range, whatever comes after them. */
  lemma {:induction false} FinalValue(upper: bool, more: BitString)
    ensures var low := if upper then HALF else QUARTER;
            low <= ValueOf([upper, !upper] + more) < low + QUARTER
  {
    PowersHere();
    assert [upper, !upper] + more == [upper] + ([!upper] + more);
    WindowCons(upper, [!upper] + more, 47);
    WindowCons(!upper, more, 46);
    BitsOfNumber(Window(more, 46));
    hide Window, NumberOf, Pow2;
  }

  // ---- The value stays in the range

  lemma {:induction false} HalfHolds(r: Range, bit: bool, bits: BitString)
    requires InHalf(r) && InFull(r) && bit == IsUpper(r) && Holds(Doubled(r, HalfOffset(r)), ValueOf(bits))
    ensures Holds(r, ValueOf([bit] + bits))
  {
    ValueOfFront(bit, bits);
    hide ValueOf;
  }

  lemma {:induction false} MiddleHolds(r: Range, bits: BitString)
    requires InMiddle(r) && |bits| >= 2 && Holds(Doubled(r, QUARTER), ValueOf(bits))
    ensures Holds(r, ValueOf(Owing(bits, 1)))
  {
    ValueOfOwing(bits);
    hide ValueOf, Owing;
  }

  lemma {:induction false} CodedLands(share: Share, counts: Counts, r: Range, symbols: seq<nat>, more: BitString)
    requires Shares(share) && IsModel(counts, |symbols|) && Settled(r) && AreSymbols(symbols)
    ensures Holds(r, ValueOf(Coded(share, counts, r, symbols) + more))
    ensures symbols != [] ==>
              Holds(SubRange(share, counts, r, symbols[0]), ValueOf(Coded(share, counts, r, symbols) + more))
    decreases |symbols|, 0, 0
  {
    hide ValueOf, Shares;
    if symbols == [] {
      FinalValue(r.low > QUARTER, more);
    } else {
      CountedIsModel(counts, symbols[0], |symbols| - 1);
      SubRangeInside(share, counts, r, symbols[0]);
      NarrowedLands(share, Counted(counts, symbols[0]), SubRange(share, counts, r, symbols[0]), symbols[1..], more);
    }
  }

  lemma {:induction false} NarrowedLands(share: Share, counts: Counts, r: Range, symbols: seq<nat>, more: BitString)
    requires Shares(share) && IsModel(counts, |symbols|) && InFull(r) && AreSymbols(symbols)
    ensures Holds(r, ValueOf(Narrowed(share, counts, r, symbols) + more))
    decreases |symbols|, 1, FULL - (r.high - r.low)
  {
    hide ValueOf, Shares, Owing;
    if InHalf(r) {
      var next := Doubled(r, HalfOffset(r));
      NarrowedLands(share, counts, next, symbols, more);
      FrontFirst(IsUpper(r), Narrowed(share, counts, next, symbols), more);
      HalfHolds(r, IsUpper(r), Narrowed(share, counts, next, symbols) + more);
    } else if InMiddle(r) {
      var next := Doubled(r, QUARTER);
      NarrowedLands(share, counts, next, symbols, more);
      OwingFirst(Narrowed(share, counts, next, symbols), more);
      MiddleHolds(r, Narrowed(share, counts, next, symbols) + more);
    } else {
      CodedLands(share, counts, r, symbols, more);
    }
  }

  lemma {:induction false} FrontFirst(bit: bool, bits: BitString, more: BitString)
    ensures [bit] + bits + more == [bit] + (bits + more)
  {
  }

  lemma {:induction false} OwingFirst(bits: BitString, more: BitString)
    requires bits != []
    ensures Owing(bits, 1) + more == Owing(bits + more, 1)
  {
    assert (bits + more)[1..] == bits[1..] + more;
  }

  // ---- The decoder follows

  /** The decoder at `position` of `stream` is 48 bits into the bits still to come, and the padding covers the rest. */
  ghost predicate Follows(stream: BitString, position: nat, coming: BitString) {
    && position + |coming| == |stream| + PRECISION
    && forall i: nat :: i >= position ==> At(stream, i) == At(coming, i - position + PRECISION)
  }

  lemma {:induction false} FollowsFront(stream: BitString, position: nat, bit: bool, bits: BitString)
    requires Follows(stream, position, [bit] + bits) && bits != []
    ensures position < |stream| + PRECISION
    ensures Follows(stream, position + 1, bits)
    ensures At([bit] + bits, PRECISION) == At(stream, position)
  {
    forall i: nat | i >= position + 1
      ensures At(stream, i) == At(bits, i - (position + 1) + PRECISION)
    {
      assert At(stream, i) == At([bit] + bits, i - position + PRECISION);
    }
  }

  lemma {:induction false} FollowsOwing(stream: BitString, position: nat, bits: BitString)
    requires |bits| >= 2 && Follows(stream, position, Owing(bits, 1))
    ensures position < |stream| + PRECISION
    ensures Follows(stream, position + 1, bits)
    ensures At(Owing(bits, 1), PRECISION) == At(stream, position)
  {
    assert Owing(bits, 1) == [bits[0]] + ([!bits[0]] + bits[1..]);
    forall i: nat | i >= position + 1
      ensures At(stream, i) == At(bits, i - (position + 1) + PRECISION)
    {
      assert At(stream, i) == At(Owing(bits, 1), i - position + PRECISION);
    }
  }

  /** What decoding gives back: the data, unless it is longer than still allowed. */
  function Allowed(data: seq<nat>, left: nat): Outcome<seq<nat>> {
    if |data| <= left then Accept(data) else Refuse(Malformed)
  }

  lemma {:induction false} DecodesCoded(
    share: Share, counts: Counts, r: Range, data: seq<nat>, more: BitString, stream: BitString, position: nat,
    left: nat)
    requires Shares(share) && IsModel(counts, |data| + 1) && IsModel(counts, left + 1) && Settled(r) && AreBytes(data)
    requires Follows(stream, position, Coded(share, counts, r, data + [END_OF_DATA]) + more)
    ensures Holds(r, ValueOf(Coded(share, counts, r, data + [END_OF_DATA]) + more))
    ensures Decoded(share, counts, r, ValueOf(Coded(share, counts, r, data + [END_OF_DATA]) + more), stream, position,
            left)
            == Allowed(data, left)
    decreases |data|, 2, 0
  {
    hide ValueOf, Shares, Owing, Follows, At;
    var symbols := data + [END_OF_DATA];
    var coded := Coded(share, counts, r, symbols) + more;
    CodedLands(share, counts, r, symbols, more);
    FindsHolder(share, counts, r, ValueOf(coded), 0, symbols[0]);
    if data != [] {
      CountedIsModel(counts, data[0], |data|);
      CountedIsModel(counts, data[0], left);
      SubRangeInside(share, counts, r, data[0]);
      assert symbols[1..] == data[1..] + [END_OF_DATA] && data == [data[0]] + data[1..];
      DecodesNarrowed(share, Counted(counts, data[0]), SubRange(share, counts, r, data[0]), data[0], data[1..],
                      more, stream, position, left);
    }
  }

  lemma {:induction false} DecodesNarrowed(
    share: Share, counts: Counts, r: Range, symbol: nat, data: seq<nat>, more: BitString, stream: BitString,
    position: nat,
    left: nat)
    requires Shares(share) && IsModel(counts, |data| + 1) && IsModel(counts, left) && InFull(r) && AreBytes(data)
    requires Follows(stream, position, Narrowed(share, counts, r, data + [END_OF_DATA]) + more)
    ensures Holds(r, ValueOf(Narrowed(share, counts, r, data + [END_OF_DATA]) + more))
    ensures Rescaled(share, counts, r, ValueOf(Narrowed(share, counts, r, data + [END_OF_DATA]) + more), stream,
            position,
            left, symbol)
            == Allowed([symbol] + data, left)
    decreases |data|, 3, FULL - (r.high - r.low)
  {
    hide ValueOf, Shares, Owing, Follows, At;
    var symbols := data + [END_OF_DATA];
    NarrowedLands(share, counts, r, symbols, more);
    if InHalf(r) {
      var next := Doubled(r, HalfOffset(r));
      var rest := Narrowed(share, counts, next, symbols);
      FrontFirst(IsUpper(r), rest, more);
      FollowsFront(stream, position, IsUpper(r), rest + more);
      ValueOfFront(IsUpper(r), rest + more);
      DecodesNarrowed(share, counts, next, symbol, data, more, stream, position + 1, left);
    } else if InMiddle(r) {
      var next := Doubled(r, QUARTER);
      var rest := Narrowed(share, counts, next, symbols);
      OwingFirst(rest, more);
      FollowsOwing(stream, position, rest + more);
      ValueOfOwing(rest + more);
      DecodesNarrowed(share, counts, next, symbol, data, more, stream, position + 1, left);
    } else if left > 0 {
      DecodesCoded(share, counts, r, data, more, stream, position, left - 1);
    }
  }

  /** Decoding what was coded gives the data back, up to the longest allowed, and refuses what is
      longer; the decoder never reads past the end marker, so any bits may come after it. */
  lemma {:induction false} DecodesWhatWasCoded(share: Share, data: seq<nat>, more: BitString)
    requires Shares(share) && Countable(data)
    ensures DecodedData(share, CodedData(share, data) + more) == Allowed(data, MAX_INVOICE_DATA_LENGTH)
  {
    var coded := CodedData(share, data);
    var stream := coded + more;
    FirstIsModel(|data| + 1);
    FirstIsModel(MAX_INVOICE_DATA_LENGTH + 1);
    WindowFits(stream);
    hide Coded, Decoded, Shares, IsModel;
    assert Follows(stream, PRECISION, stream);
    DecodesCoded(share, FirstCounts(), FULL_RANGE, data, more, stream, PRECISION, MAX_INVOICE_DATA_LENGTH);
  }
}
