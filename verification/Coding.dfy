/** The adaptive arithmetic coder as functions: the bits a symbol
    string codes to, and the symbols a bit string decodes to. */
module Coding {
  import opened Outcomes
  import opened BitStrings
  import opened Scaling

  const END_OF_DATA: nat := 256
  const SYMBOLS: nat := 257
  const PRECISION: nat := 48
  const MAX_INVOICE_DATA_LENGTH: nat := 16384

  // ---- The model

  type Counts = seq<nat>

  function SumTo(counts: Counts, n: nat): nat
    requires n <= |counts|
  {
    if n == 0 then 0 else SumTo(counts, n - 1) + counts[n - 1]
  }

  function TotalCount(counts: Counts): nat {
    SumTo(counts, |counts|)
  }

  /** Every symbol has a count, and `room` more can still be counted. */
  ghost predicate IsModel(counts: Counts, room: nat) {
    |counts| == SYMBOLS && (forall s :: 0 <= s < SYMBOLS ==> counts[s] >= 1) && TotalCount(counts) + room <= MAX_TOTAL
  }

  /** The end marker is never counted. */
  function Counted(counts: Counts, symbol: nat): Counts
    requires |counts| == SYMBOLS && symbol < SYMBOLS
  {
    if symbol == END_OF_DATA then counts else counts[symbol := counts[symbol] + 1]
  }

  lemma {:induction false} CountedSums(counts: Counts, symbol: nat, n: nat)
    requires symbol < |counts| && n <= |counts|
    ensures SumTo(counts[symbol := counts[symbol] + 1], n) == SumTo(counts, n) + if symbol < n then 1 else 0
  {
    if n > 0 {
      CountedSums(counts, symbol, n - 1);
    }
  }

  lemma {:induction false} CountedIsModel(counts: Counts, symbol: nat, room: nat)
    requires IsModel(counts, room + 1) && symbol < SYMBOLS
    ensures IsModel(Counted(counts, symbol), room)
  {
    CountedSums(counts, symbol, SYMBOLS);
  }

  lemma {:induction false} SumsRise(counts: Counts, m: nat, n: nat)
    requires m < n <= |counts| && forall s :: 0 <= s < |counts| ==> counts[s] >= 1
    ensures SumTo(counts, m) < SumTo(counts, n)
  {
    if m < n - 1 {
      SumsRise(counts, m, n - 1);
    }
  }

  // ---- Ranges

  datatype Range = Range(low: int, high: int)

  predicate InFull(r: Range) {
    0 <= r.low < r.high <= FULL
  }

  /** After renormalising: around the middle, and at least a quarter wide. */
  predicate Settled(r: Range) {
    InFull(r) && r.low <= HALF <= r.high && (r.low <= QUARTER || r.high >= THREE_QUARTERS)
  }

  predicate Holds(r: Range, value: int) {
    r.low <= value < r.high
  }

  lemma {:induction false} SettledIsWide(r: Range)
    requires Settled(r)
    ensures QUARTER <= r.high - r.low <= FULL
  {
  }

  /** A symbol's share of a range, from the counts below it to its own. */
  function SubRange(share: Share, counts: Counts, r: Range, symbol: nat): Range
    requires Settled(r) && |counts| == SYMBOLS && symbol < SYMBOLS
  {
    var width := r.high - r.low;
    Range(r.low + share(width, SumTo(counts, symbol), TotalCount(counts)),
          r.low + share(width, SumTo(counts, symbol + 1), TotalCount(counts)))
  }

  lemma {:induction false} SharesApart(share: Share, width: nat, a: nat, b: nat, total: nat)
    requires Shares(share) && QUARTER <= width <= FULL && a < b <= total <= MAX_TOTAL
    ensures 0 <= share(width, a, total) < share(width, b, total) <= width
  {
    assert share(width, total, total) == width;
  }

  /** Every symbol's share is inside the range, and none is empty. */
  lemma {:induction false} SubRangeInside(share: Share, counts: Counts, r: Range, symbol: nat)
    requires Shares(share) && IsModel(counts, 0) && Settled(r) && symbol < SYMBOLS
    ensures var sub := SubRange(share, counts, r, symbol);
            InFull(sub) && r.low <= sub.low < sub.high <= r.high
  {
    SumsRise(counts, symbol, symbol + 1);
    if symbol + 1 < SYMBOLS {
      SumsRise(counts, symbol + 1, SYMBOLS);
    }
    SettledIsWide(r);
    SharesApart(share, r.high - r.low, SumTo(counts, symbol), SumTo(counts, symbol + 1), TotalCount(counts));
  }

  /** Shares do not overlap: a later symbol's starts where an earlier one's has ended. */
  lemma {:induction false} SharesInOrder(share: Share, counts: Counts, r: Range, a: nat, b: nat)
    requires Shares(share) && IsModel(counts, 0) && Settled(r) && a < b < SYMBOLS
    ensures SubRange(share, counts, r, a).high <= SubRange(share, counts, r, b).low
  {
    SettledIsWide(r);
    if a + 1 < b {
      SumsRise(counts, a + 1, b);
      SumsRise(counts, b, SYMBOLS);
      SharesApart(share, r.high - r.low, SumTo(counts, a + 1), SumTo(counts, b), TotalCount(counts));
    }
  }

  // ---- Renormalising

  /** The range lies in one half. */
  predicate InHalf(r: Range) {
    r.high < HALF || r.low > HALF
  }

  predicate IsUpper(r: Range) {
    r.low > HALF
  }

  /** The range lies in the middle half. */
  predicate InMiddle(r: Range) {
    r.low > QUARTER && r.high < THREE_QUARTERS
  }

  function Doubled(r: Range, offset: nat): Range {
    Range((r.low - offset) * 2, (r.high - offset) * 2)
  }

  function HalfOffset(r: Range): nat {
    if IsUpper(r) then HALF else 0
  }

  // ---- Coding

  /** A bit string with `n` opposites of its first bit put in behind that bit. */
  function Owing(bits: BitString, n: nat): BitString
    requires bits != []
  {
    [bits[0]] + Repeated(!bits[0], n) + bits[1..]
  }

  function Repeated(bit: bool, n: nat): (bits: BitString)
    ensures |bits| == n && forall i :: 0 <= i < n ==> bits[i] == bit
  {
    seq(n, i => bit)
  }

  predicate AreSymbols(symbols: seq<nat>) {
    forall i :: 0 <= i < |symbols| ==> symbols[i] < SYMBOLS
  }

  /** The bits from a settled range on, none owed: the symbols left, then two bits that land in the last range. */
  ghost function Coded(share: Share, counts: Counts, r: Range, symbols: seq<nat>): (bits: BitString)
    requires Shares(share) && IsModel(counts, |symbols|) && Settled(r) && AreSymbols(symbols)
    ensures |bits| >= 2
    decreases |symbols|, 0, 0
  {
    if symbols == [] then [r.low > QUARTER, !(r.low > QUARTER)] else
      CountedIsModel(counts, symbols[0], |symbols| - 1);
      SubRangeInside(share, counts, r, symbols[0]);
      Narrowed(share, Counted(counts, symbols[0]), SubRange(share, counts, r, symbols[0]), symbols[1..])
  }

  /** The same from a range not settled yet. */
  ghost function Narrowed(share: Share, counts: Counts, r: Range, symbols: seq<nat>): (bits: BitString)
    requires Shares(share) && IsModel(counts, |symbols|) && InFull(r) && AreSymbols(symbols)
    ensures |bits| >= 2
    decreases |symbols|, 1, FULL - (r.high - r.low)
  {
    if InHalf(r) then [IsUpper(r)] + Narrowed(share, counts, Doubled(r, HalfOffset(r)), symbols)
    else if InMiddle(r) then Owing(Narrowed(share, counts, Doubled(r, QUARTER), symbols), 1)
    else Coded(share, counts, r, symbols)
  }

  // ---- Decoding

  /** Symbols are tried in order, and the end marker is what is left when no byte's share holds the value. */
  function Find(share: Share, counts: Counts, r: Range, value: int, from: nat): (symbol: nat)
    requires Settled(r) && |counts| == SYMBOLS && from <= END_OF_DATA
    ensures symbol <= END_OF_DATA
    decreases END_OF_DATA - from
  {
    if from == END_OF_DATA || Holds(SubRange(share, counts, r, from), value) then from
    else Find(share, counts, r, value, from + 1)
  }

  /** A value of the range is found in the one share that holds it. */
  lemma {:induction false} FindsHolder(share: Share, counts: Counts, r: Range, value: int, from: nat, symbol: nat)
    requires Shares(share) && IsModel(counts, 0) && Settled(r) && from <= symbol < SYMBOLS
    requires Holds(SubRange(share, counts, r, symbol), value)
    ensures Find(share, counts, r, value, from) == symbol
    decreases symbol - from
  {
    if from < symbol {
      SharesInOrder(share, counts, r, from, symbol);
      FindsHolder(share, counts, r, value, from + 1, symbol);
    }
  }

  /** What is found holds the value. */
  lemma {:induction false} FoundHolds(share: Share, counts: Counts, r: Range, value: int, from: nat)
    requires Shares(share) && IsModel(counts, 0) && Settled(r) && from <= END_OF_DATA
    requires SubRange(share, counts, r, from).low <= value < r.high
    ensures Holds(SubRange(share, counts, r, Find(share, counts, r, value, from)), value)
    decreases END_OF_DATA - from
  {
    if from == END_OF_DATA {
      SettledIsWide(r);
      assert SubRange(share, counts, r, END_OF_DATA).high == r.high;
    } else if !Holds(SubRange(share, counts, r, from), value) {
      FoundHolds(share, counts, r, value, from + 1);
    }
  }

  lemma {:induction false} FirstShareStartsAtLow(share: Share, counts: Counts, r: Range)
    requires Shares(share) && IsModel(counts, 0) && Settled(r)
    ensures SubRange(share, counts, r, 0).low == r.low
  {
    SettledIsWide(r);
    SumsRise(counts, 0, SYMBOLS);
  }

  /** The bytes a bit string decodes to from a settled range on;
      `position` bits were read and `left` more bytes may follow. */
  ghost function Decoded(
    share: Share, counts: Counts, r: Range, value: int, bits: BitString, position: nat, left: nat): Outcome<seq<nat>>
    requires Shares(share) && IsModel(counts, left + 1) && Settled(r) && Holds(r, value)
    decreases left, 2, 0
  {
    var symbol := Find(share, counts, r, value, 0);
    if symbol == END_OF_DATA then Accept([]) else
      FirstShareStartsAtLow(share, counts, r);
      FoundHolds(share, counts, r, value, 0);
      SubRangeInside(share, counts, r, symbol);
      CountedIsModel(counts, symbol, left);
      Rescaled(share, Counted(counts, symbol), SubRange(share, counts, r, symbol), value, bits, position, left, symbol)
  }

  /** The same once a symbol was found, its range not settled yet: past the padding, the next bit is refused. */
  ghost function Rescaled(
    share: Share, counts: Counts, r: Range, value: int, bits: BitString, position: nat, left: nat,
    symbol: nat): Outcome<seq<nat>>
    requires Shares(share) && IsModel(counts, left) && InFull(r) && Holds(r, value)
    decreases left, 1, FULL - (r.high - r.low)
  {
    if InHalf(r) || InMiddle(r) then
      var offset := if InHalf(r) then HalfOffset(r) else QUARTER;
      if position >= |bits| + PRECISION then Refuse(Malformed)
      else Rescaled(share, counts, Doubled(r, offset), (value - offset) * 2 + Weight(At(bits, position)),
                  bits, position + 1, left, symbol)
    else if left == 0 then Refuse(Malformed)
    else
      var rest :- Decoded(share, counts, r, value, bits, position, left - 1);
      Accept([symbol] + rest)
  }

  // ---- Whole streams

  const FULL_RANGE: Range := Range(0, FULL)

  function FirstCounts(): (counts: Counts)
    ensures |counts| == SYMBOLS && forall s :: 0 <= s < SYMBOLS ==> counts[s] == 1
  {
    seq(SYMBOLS, s => 1)
  }

  lemma {:induction false} FirstSum(n: nat)
    requires n <= SYMBOLS
    ensures SumTo(FirstCounts(), n) == n
  {
    if n > 0 {
      FirstSum(n - 1);
    }
  }

  lemma {:induction false} FirstIsModel(room: nat)
    requires SYMBOLS + room <= MAX_TOTAL
    ensures IsModel(FirstCounts(), room)
  {
    FirstSum(SYMBOLS);
  }

  predicate AreBytes(data: seq<nat>) {
    forall i :: 0 <= i < |data| ==> data[i] < 256
  }

  /** Fewer bytes than any count could overflow by. */
  predicate Countable(data: seq<nat>) {
    AreBytes(data) && SYMBOLS + |data| + 1 <= MAX_TOTAL
  }

  ghost function CodedData(share: Share, data: seq<nat>): (bits: BitString)
    requires Shares(share) && Countable(data)
    ensures |bits| >= 2
  {
    FirstIsModel(|data| + 1);
    Coded(share, FirstCounts(), FULL_RANGE, data + [END_OF_DATA])
  }

  ghost function DecodedData(share: Share, bits: BitString): Outcome<seq<nat>>
    requires Shares(share)
  {
    FirstIsModel(MAX_INVOICE_DATA_LENGTH + 1);
    WindowFits(bits);
    Decoded(share, FirstCounts(), FULL_RANGE, NumberOf(Window(bits, PRECISION)), bits, PRECISION,
      MAX_INVOICE_DATA_LENGTH)
  }

  lemma {:induction false} WindowFits(bits: BitString)
    ensures 0 <= NumberOf(Window(bits, PRECISION)) < FULL
  {
    BitsOfNumber(Window(bits, PRECISION));
    PowersHere();
  }

  lemma {:induction false} PowersHere()
    ensures Powers.Pow2(48) == FULL && Powers.Pow2(47) == HALF && Powers.Pow2(46) == QUARTER
  {
    assert Powers.Pow2(8) == 256;
    assert Powers.Pow2(16) == 0x10000;
    assert Powers.Pow2(24) == 0x100_0000;
    assert Powers.Pow2(32) == 0x1_0000_0000;
    assert Powers.Pow2(40) == 0x100_0000_0000;
  }
}
