/** The coder as it runs: an adaptive model, a writer that owes bits,
    a reader that pads, and the two loops over them. */
module Coder {
  import opened Outcomes
  import opened Powers
  import opened BitStrings
  import opened Scaling
  import opened Coding
  import opened CodingRoundTrip

  // ---- Bits and bytes

  function ByteCount(bits: nat): nat {
    (bits + 7) / 8
  }

  /** The bits, filled up to a multiple of eight. */
  function Padded(bits: BitString): (padded: BitString)
    ensures |padded| == Span(ByteCount(|bits|), 8)
  {
    SpanIsProduct(ByteCount(|bits|), 8);
    Window(bits, ByteCount(|bits|) * 8)
  }

  function Packed(bits: BitString): seq<nat> {
    Gather(Padded(bits), ByteCount(|bits|), 8)
  }

  /** Unpacking what was packed gives the bits back, and zeros after them to a whole byte. */
  lemma {:induction false} PackingPads(bits: BitString)
    ensures |bits| <= |Spread(Packed(bits), 8)| < |bits| + 8
    ensures Spread(Packed(bits), 8) == bits + Zeros(|Spread(Packed(bits), 8)| - |bits|)
  {
    hide Spread, Gather, Span;
    SpreadGather(Padded(bits), ByteCount(|bits|), 8);
    SpanIsProduct(ByteCount(|bits|), 8);
    WindowPads(bits, ByteCount(|bits|) * 8);
  }

  lemma {:induction false} WindowPads(bits: BitString, n: nat)
    requires |bits| <= n
    ensures Window(bits, n) == bits + Zeros(n - |bits|)
  {
  }

  // ---- The model

  class CoderModel {
    const counts: array<nat>
    var total: nat

    ghost predicate Valid()
      reads this, counts
    {
      counts.Length == SYMBOLS && total == TotalCount(counts[..])
    }

    constructor ()
      ensures Valid() && fresh(counts) && counts[..] == FirstCounts()
    {
      counts := new nat[SYMBOLS](i => 1);
      total := SYMBOLS;
      new;
      FirstSum(SYMBOLS);
      assert counts[..] == FirstCounts();
    }

    /** `SubRange` of the counts as they stand, the ones below the symbol added up in a loop. */
    method SubRangeOf(share: Share, r: Range, symbol: nat) returns (sub: Range)
      requires Valid() && Settled(r) && symbol < SYMBOLS
      ensures sub == SubRange(share, counts[..], r, symbol)
    {
      var below := 0;
      for i := 0 to symbol
        invariant below == SumTo(counts[..], i)
      {
        below := below + counts[i];
      }
      sub := Portion(share, r, below, counts[symbol]);
    }

    function Portion(share: Share, r: Range, below: nat, count: nat): Range
      requires Settled(r)
      reads this
    {
      var width := r.high - r.low;
      Range(r.low + share(width, below, total), r.low + share(width, below + count, total))
    }

    /** `Find`, carrying the sum of the counts passed so far. */
    method FindSymbol(share: Share, r: Range, value: int) returns (symbol: nat, sub: Range)
      requires Valid() && Settled(r)
      ensures symbol == Find(share, counts[..], r, value, 0) && symbol < SYMBOLS
      ensures sub == SubRange(share, counts[..], r, symbol)
    {
      ghost var all := counts[..];
      var below := 0;
      symbol := 0;
      while symbol < END_OF_DATA
        invariant symbol <= END_OF_DATA
        invariant below == SumTo(all, symbol)
        invariant Find(share, all, r, value, 0) == Find(share, all, r, value, symbol)
      {
        sub := Portion(share, r, below, counts[symbol]);
        assert sub == SubRange(share, all, r, symbol);
        if Holds(sub, value) {
          return;
        }
        below := below + counts[symbol];
        symbol := symbol + 1;
      }
      sub := Portion(share, r, below, counts[END_OF_DATA]);
      assert sub == SubRange(share, all, r, END_OF_DATA);
    }

    /** One more for the symbol's count, and for the total. */
    method Update(symbol: nat)
      requires Valid() && symbol < END_OF_DATA
      modifies this`total, counts
      ensures Valid() && counts[..] == Counted(old(counts[..]), symbol)
    {
      CountedSums(counts[..], symbol, SYMBOLS);
      ghost var before := counts[..];
      counts[symbol] := counts[symbol] + 1;
      total := total + 1;
      assert counts[..] == before[symbol := before[symbol] + 1];
    }
  }

  // ---- The writer

  class CoderOutput {
    var bits: BitString
    var pending: nat

    constructor ()
      ensures bits == [] && pending == 0
    {
      bits, pending := [], 0;
    }

    /** Appends `Owing` of the bit and leaves nothing pending. */
    method Emit(bit: bool)
      modifies this
      ensures bits == old(bits) + Owing([bit], old(pending)) && pending == 0
    {
      bits := bits + [bit];
      ghost var owed := 0;
      assert [bit][1..] == [];
      while pending > 0
        invariant owed + pending == old(pending)
        invariant bits == old(bits) + ([bit] + Repeated(!bit, owed))
        decreases pending
      {
        assert Repeated(!bit, owed + 1) == Repeated(!bit, owed) + [!bit];
        bits := bits + [!bit];
        pending := pending - 1;
        owed := owed + 1;
      }
      assert Owing([bit], old(pending)) == [bit] + Repeated(!bit, owed) + [];
    }

    /** `Packed` of the bits written, set one at a time in bytes that start at zero. */
    method ToBytes() returns (bytes: seq<nat>)
      ensures bytes == Packed(bits)
    {
      hide PackedWith, Packed, Window, Zeros, Pow2;
      var count := ByteCount(|bits|);
      var out := new nat[count](i => 0);
      NothingPacked(out[..], count);
      assert bits[..0] == [];
      for i := 0 to |bits|
        invariant bits == old(bits)
        invariant out[..] == PackedWith(bits[..i], count)
      {
        // The bit was not set before, so setting it adds its weight.
        SettingPacks(bits[..i], bits[i], count);
        out[i / 8] := out[i / 8] + Weight(bits[i]) * Pow2(7 - i % 8);
        assert bits[..i + 1] == bits[..i] + [bits[i]];
      }
      assert bits[..|bits|] == bits;
      AllPacked(bits);
      bytes := out[..];
    }
  }

  /** Some bits packed into `count` bytes, zeros after them. */
  function PackedWith(bits: BitString, count: nat): seq<nat> {
    SpanIsProduct(count, 8);
    Gather(Window(bits, count * 8), count, 8)
  }

  lemma {:induction false} AllPacked(bits: BitString)
    ensures PackedWith(bits, ByteCount(|bits|)) == Packed(bits)
  {
    SpanIsProduct(ByteCount(|bits|), 8);
    assert Padded(bits) == Window(bits, ByteCount(|bits|) * 8);
  }

  lemma {:induction false} GatheredZeros(n: nat)
    ensures |Zeros(n * 8)| == Span(n, 8)
    ensures Gather(Zeros(n * 8), n, 8) == seq(n, i => 0)
  {
    SpanIsProduct(n, 8);
    if n > 0 {
      GatheredZeros(n - 1);
      SpanIsProduct(n - 1, 8);
      assert Zeros(n * 8) == Zeros((n - 1) * 8) + Zeros(8);
      GatherSnoc(Zeros((n - 1) * 8), Zeros(8), n - 1, 8);
      ZerosAreZero(8);
      assert (seq(n, i => 0)) == (seq(n - 1, i => 0)) + [0];
    }
  }

  lemma {:induction false} NothingPacked(bytes: seq<nat>, count: nat)
    requires |bytes| == count && forall i :: 0 <= i < count ==> bytes[i] == 0
    ensures bytes == PackedWith([], count)
  {
    GatheredZeros(count);
    assert Window([], count * 8) == Zeros(count * 8);
    assert bytes == seq(count, i => 0);
  }

  /** One bit more sets one bit of one byte. */
  lemma {:induction false} SettingPacks(bits: BitString, bit: bool, count: nat)
    requires |bits| < count * 8
    ensures var k := |bits| / 8;
            var packed := PackedWith(bits, count);
            PackedWith(bits + [bit], count) == packed[k := packed[k] + Weight(bit) * Pow2(7 - |bits| % 8)]
  {
    var k, packed, now := |bits| / 8, PackedWith(bits, count), PackedWith(bits + [bit], count);
    forall i | 0 <= i < count
      ensures now[i] == packed[i] + if i == k then Weight(bit) * Pow2(7 - |bits| % 8) else 0
    {
      SettingPacksAt(bits, bit, count, i);
    }
    hide PackedWith, Pow2;
    assert now == packed[k := packed[k] + Weight(bit) * Pow2(7 - |bits| % 8)];
  }

  /** A byte of the packed bits is the number eight of them spell. */
  lemma {:induction false} PackedAt(bits: BitString, count: nat, i: nat)
    requires i < count
    ensures |PackedWith(bits, count)| == count
    ensures PackedWith(bits, count)[i] == NumberOf(Window(bits, count * 8)[i * 8..i * 8 + 8])
  {
    SpanIsProduct(count, 8);
    SpanIsProduct(i, 8);
    GatherAt(Window(bits, count * 8), count, 8, i);
  }

  lemma {:induction false} SettingPacksAt(bits: BitString, bit: bool, count: nat, i: nat)
    requires |bits| < count * 8 && i < count
    ensures |PackedWith(bits, count)| == |PackedWith(bits + [bit], count)| == count
    ensures PackedWith(bits + [bit], count)[i]
            == PackedWith(bits, count)[i] + if i == |bits| / 8 then Weight(bit) * Pow2(7 - |bits| % 8) else 0
  {
    PackedAt(bits, count, i);
    PackedAt(bits + [bit], count, i);
    hide PackedWith, NumberOf, Pow2;
    var before, after := Window(bits, count * 8)[i * 8..i * 8 + 8], Window(bits + [bit], count * 8)[i * 8..i * 8 + 8];
    if i == |bits| / 8 {
      assert after == before[|bits| % 8 := bit];
      SetBit(before, |bits| % 8, bit);
    } else {
      assert after == before;
    }
  }

  // ---- The reader

  class CoderInput {
    const bytes: seq<nat>
    var position: nat
    // How many zeros may still be read past the end of the stream.
    var padding: nat

    ghost predicate Valid()
      reads this
    {
      position <= |bytes| * 8 && padding <= PRECISION && (padding < PRECISION ==> position == |bytes| * 8)
    }

    /** How many bits were read, padding included. */
    ghost function Taken(): nat
      requires Valid()
      reads this
    {
      position + PRECISION - padding
    }

    constructor (bytes: seq<nat>)
      ensures Valid() && Taken() == 0 && this.bytes == bytes
    {
      this.bytes, position, padding := bytes, 0, PRECISION;
    }

    /** The bit at the reader's place, false past the end, and a refusal past the padding. */
    method NextBit() returns (bit: Outcome<bool>)
      requires Valid()
      modifies this
      ensures Valid()
      ensures bit == if old(Taken()) >= |bytes| * 8 + PRECISION then Refuse(Malformed)
                     else Accept(At(Spread(bytes, 8), old(Taken())))
      ensures bit.Accept? ==> Taken() == old(Taken()) + 1
    {
      SpanIsProduct(|bytes|, 8);
      if position < |bytes| * 8 {
        SpanIsProduct(position / 8, 8);
        SpreadAt(bytes, 8, position / 8, position % 8);
        BitAtShift(bytes[position / 8], 8, position % 8);
        bit := Accept(bytes[position / 8] / Pow2(7 - position % 8) % 2 == 1);
        position := position + 1;
      } else if padding == 0 {
        bit := Refuse(Malformed);
      } else {
        padding := padding - 1;
        bit := Accept(false);
      }
    }
  }

  // ---- Compressing

  lemma {:induction false} OwingNone(bits: BitString)
    requires bits != []
    ensures Owing(bits, 0) == bits
  {
  }

  /** A bit written while some are owed, before the rest. */
  lemma {:induction false} OwingFront(bit: bool, rest: BitString, owed: nat)
    requires rest != []
    ensures Owing([bit] + rest, owed) == Owing([bit], owed) + Owing(rest, 0)
  {
  }

  lemma {:induction false} OwingMore(bits: BitString, owed: nat)
    requires bits != []
    ensures Owing(Owing(bits, 1), owed) == Owing(bits, owed + 1)
  {
  }

  lemma {:induction false} OwingFinal(bit: bool, owed: nat)
    ensures Owing([bit, !bit], owed) == Owing([bit], owed + 1)
  {
  }

  /** Renormalises, writing what is decided. */
  method WriteSettled(
    output: CoderOutput, share: Share, ghost counts: Counts, r: Range, ghost symbols: seq<nat>) returns (settled: Range)
    requires Shares(share) && IsModel(counts, |symbols|) && InFull(r) && AreSymbols(symbols)
    modifies output
    ensures Settled(settled)
    ensures output.bits + Owing(Coded(share, counts, settled, symbols), output.pending)
            == old(output.bits) + Owing(Narrowed(share, counts, r, symbols), old(output.pending))
  {
    hide Owing, Shares, IsModel;
    settled := r;
    while InHalf(settled)
      invariant InFull(settled)
      invariant output.bits + Owing(Narrowed(share, counts, settled, symbols), output.pending)
                == old(output.bits) + Owing(Narrowed(share, counts, r, symbols), old(output.pending))
      decreases FULL - (settled.high - settled.low)
    {
      ghost var rest := Narrowed(share, counts, Doubled(settled, HalfOffset(settled)), symbols);
      OwingFront(IsUpper(settled), rest, output.pending);
      output.Emit(IsUpper(settled));
      settled := Doubled(settled, HalfOffset(settled));
    }
    while InMiddle(settled)
      invariant InFull(settled) && !InHalf(settled)
      invariant output.bits + Owing(Narrowed(share, counts, settled, symbols), output.pending)
                == old(output.bits) + Owing(Narrowed(share, counts, r, symbols), old(output.pending))
      decreases FULL - (settled.high - settled.low)
    {
      OwingMore(Narrowed(share, counts, Doubled(settled, QUARTER), symbols), output.pending);
      output.pending := output.pending + 1;
      settled := Doubled(settled, QUARTER);
    }
  }

  /** What is coded from a settled range: the next symbol's share narrowed, or the two final bits. */
  lemma {:induction false} CodedUnfolds(share: Share, counts: Counts, r: Range, symbols: seq<nat>)
    requires Shares(share) && IsModel(counts, |symbols|) && Settled(r) && AreSymbols(symbols)
    ensures symbols == [] ==> Coded(share, counts, r, symbols) == [r.low > QUARTER, !(r.low > QUARTER)]
    ensures symbols != [] ==>
              var sub := SubRange(share, counts, r, symbols[0]);
              && InFull(sub) && IsModel(Counted(counts, symbols[0]), |symbols| - 1)
              && Coded(share, counts, r, symbols) == Narrowed(share, Counted(counts, symbols[0]), sub, symbols[1..])
  {
    hide Narrowed, Shares;
    if symbols != [] {
      CountedIsModel(counts, symbols[0], |symbols| - 1);
      SubRangeInside(share, counts, r, symbols[0]);
    }
  }

  /** One symbol coded: its share of the range, the bits that settles it, and one more count where it is a byte. */
  method CodeOne(
    model: CoderModel, output: CoderOutput, share: Share, r: Range, symbol: nat, ghost rest: seq<nat>)
    returns (settled: Range)
    requires Shares(share) && model.Valid() && IsModel(model.counts[..], |rest| + 1) && Settled(r)
    requires symbol < SYMBOLS && AreSymbols(rest)
    modifies model`total, model.counts, output
    ensures model.Valid() && IsModel(model.counts[..], |rest|) && Settled(settled)
    ensures output.bits + Owing(Coded(share, model.counts[..], settled, rest), output.pending)
            == old(output.bits) + Owing(Coded(share, old(model.counts[..]), r, [symbol] + rest), old(output.pending))
  {
    hide Owing, Shares, Narrowed, Coded, IsModel;
    ghost var counts := model.counts[..];
    assert ([symbol] + rest)[1..] == rest;
    CodedUnfolds(share, counts, r, [symbol] + rest);
    var sub := model.SubRangeOf(share, r, symbol);
    settled := WriteSettled(output, share, Counted(counts, symbol), sub, rest);
    if symbol != END_OF_DATA {
      model.Update(symbol);
    }
  }

  /** The two bits that land in the last range. */
  method CodeEnd(output: CoderOutput, share: Share, ghost counts: Counts, r: Range)
    requires Shares(share) && IsModel(counts, 0) && Settled(r)
    modifies output
    ensures output.bits == old(output.bits) + Owing(Coded(share, counts, r, []), old(output.pending))
  {
    CodedUnfolds(share, counts, r, []);
    hide Owing, Coded, Narrowed, Shares, IsModel;
    OwingFinal(r.low > QUARTER, output.pending);
    output.pending := output.pending + 1;
    output.Emit(r.low > QUARTER);
  }

  /** `Packed` of the coded data: every byte narrows the range, and the end marker last. */
  method Compress(share: Share, data: seq<nat>) returns (compressed: seq<nat>)
    requires Shares(share) && Countable(data)
    ensures compressed == Packed(CodedData(share, data))
  {
    hide Owing, Shares, Narrowed, Coded, IsModel;
    var model := new CoderModel();
    var output := new CoderOutput();
    var range := FULL_RANGE;
    var symbols := data + [END_OF_DATA];
    FirstIsModel(|symbols|);
    ghost var all := CodedData(share, data);
    OwingNone(all);
    assert symbols[0..] == symbols;
    for i := 0 to |symbols|
      invariant model.Valid() && fresh(model) && fresh(model.counts) && fresh(output)
      invariant IsModel(model.counts[..], |symbols| - i) && Settled(range)
      invariant output.bits + Owing(Coded(share, model.counts[..], range, symbols[i..]), output.pending) == all
    {
      assert symbols[i..] == [symbols[i]] + symbols[i + 1..];
      range := CodeOne(model, output, share, range, symbols[i], symbols[i + 1..]);
    }
    assert symbols[|symbols|..] == [];
    CodeEnd(output, share, model.counts[..], range);
    compressed := output.ToBytes();
  }

  // ---- Decompressing

  datatype Reading = Reading(range: Range, value: int)

  /** Doubles the range and the value from an offset, reading one bit. */
  method ReadDoubled(
    input: CoderInput, share: Share, ghost counts: Counts, r: Range, value: int, offset: nat, ghost left: nat,
    ghost symbol: nat)
    returns (read: Outcome<Reading>)
    requires Shares(share) && IsModel(counts, left) && InFull(r) && Holds(r, value) && input.Valid()
    requires if InHalf(r) then offset == HalfOffset(r) else InMiddle(r) && offset == QUARTER
    modifies input
    ensures input.Valid()
    ensures read.Accept? ==> read.value.range == Doubled(r, offset) && Holds(read.value.range, read.value.value)
    ensures SameDecoding(share, counts, r, value, old(input.Taken()), read, input.Taken(), Spread(input.bytes, 8), left,
            symbol)
  {
    hide Shares, IsModel, At;
    SpanIsProduct(|input.bytes|, 8);
    var bit := input.NextBit();
    if bit.Refuse? {
      return Refuse(bit.code);
    }
    read := Accept(Reading(Doubled(r, offset), (value - offset) * 2 + Weight(bit.value)));
  }

  /** Decoding goes on from a reading, or ends in its refusal. */
  ghost predicate SameDecoding(
    share: Share, counts: Counts, r: Range, value: int, position: nat,
    read: Outcome<Reading>, now: nat, bits: BitString, left: nat, symbol: nat)
    requires Shares(share) && IsModel(counts, left) && InFull(r) && Holds(r, value)
  {
    var spec := Rescaled(share, counts, r, value, bits, position, left, symbol);
    if read.Refuse? then spec == Refuse(read.code)
    else && InFull(read.value.range) && Holds(read.value.range, read.value.value)
         && spec == Rescaled(share, counts, read.value.range, read.value.value, bits, now, left, symbol)
  }

  /** Renormalises, reading as many bits as it doubles the range. */
  method ReadSettled(
    input: CoderInput, share: Share, ghost counts: Counts, r: Range, value: int, ghost left: nat, ghost symbol: nat)
    returns (read: Outcome<Reading>)
    requires Shares(share) && IsModel(counts, left) && InFull(r) && Holds(r, value) && input.Valid()
    modifies input
    ensures input.Valid()
    ensures read.Accept? ==> Settled(read.value.range) && Holds(read.value.range, read.value.value)
    ensures SameDecoding(share, counts, r, value, old(input.Taken()), read, input.Taken(), Spread(input.bytes, 8), left,
            symbol)
  {
    hide Shares, IsModel, At, Rescaled;
    var now := Reading(r, value);
    while InHalf(now.range)
      invariant InFull(now.range) && Holds(now.range, now.value) && input.Valid()
      invariant SameDecoding(share, counts, r, value, old(input.Taken()), Accept(now), input.Taken(),
                             Spread(input.bytes, 8), left, symbol)
      decreases FULL - (now.range.high - now.range.low)
    {
      read := ReadDoubled(input, share, counts, now.range, now.value, HalfOffset(now.range), left, symbol);
      if read.Refuse? {
        return;
      }
      now := read.value;
    }
    while InMiddle(now.range)
      invariant InFull(now.range) && !InHalf(now.range) && Holds(now.range, now.value) && input.Valid()
      invariant SameDecoding(share, counts, r, value, old(input.Taken()), Accept(now), input.Taken(),
                             Spread(input.bytes, 8), left, symbol)
      decreases FULL - (now.range.high - now.range.low)
    {
      read := ReadDoubled(input, share, counts, now.range, now.value, QUARTER, left, symbol);
      if read.Refuse? {
        return;
      }
      now := read.value;
    }
    read := Accept(now);
  }

  /** The first 48 bits as a number. */
  method ReadValue(input: CoderInput) returns (value: Outcome<nat>)
    requires input.Valid() && input.Taken() == 0
    modifies input
    ensures input.Valid()
    ensures value == Accept(NumberOf(Window(Spread(input.bytes, 8), PRECISION))) && input.Taken() == PRECISION
  {
    var read := 0;
    for i := 0 to PRECISION
      invariant input.Valid() && input.Taken() == i
      invariant read == NumberOf(Window(Spread(input.bytes, 8), i))
    {
      WindowSnoc(Spread(input.bytes, 8), i);
      var bit := input.NextBit();
      read := read * 2 + Weight(bit.value);
    }
    value := Accept(read);
  }

  /** What decoding gives back once some bytes are out. */
  ghost function After(out: seq<nat>, rest: Outcome<seq<nat>>): Outcome<seq<nat>> {
    if rest.Accept? then Accept(out + rest.value) else rest
  }

  lemma {:induction false} AfterBoth(out: seq<nat>, symbol: nat, rest: Outcome<seq<nat>>)
    ensures After(out, After([symbol], rest)) == After(out + [symbol], rest)
    ensures After([], rest) == rest
    ensures rest.Refuse? ==> After(out, rest) == rest
  {
    if rest.Accept? {
      assert out + ([symbol] + rest.value) == out + [symbol] + rest.value;
      assert [] + rest.value == rest.value;
    }
  }

  /** One symbol of a decoding: the end marker ends it, any other narrows the range to its share. */
  lemma {:induction false} DecodedUnfolds(
    share: Share, counts: Counts, r: Range, value: int, bits: BitString, position: nat, left: nat)
    requires Shares(share) && IsModel(counts, left + 1) && Settled(r) && Holds(r, value)
    ensures var symbol := Find(share, counts, r, value, 0);
            if symbol == END_OF_DATA then Decoded(share, counts, r, value, bits, position, left) == Accept([])
            else var sub := SubRange(share, counts, r, symbol);
                 && InFull(sub) && Holds(sub, value) && IsModel(Counted(counts, symbol), left)
                 && Decoded(share, counts, r, value, bits, position, left)
                    == Rescaled(share, Counted(counts, symbol), sub, value, bits, position, left, symbol)
  {
    FirstShareStartsAtLow(share, counts, r);
    FoundHolds(share, counts, r, value, 0);
    var symbol := Find(share, counts, r, value, 0);
    if symbol != END_OF_DATA {
      SubRangeInside(share, counts, r, symbol);
      CountedIsModel(counts, symbol, left);
    }
    hide Rescaled, Shares, IsModel, Find;
  }

  lemma {:induction false} SettledMeans(
    share: Share, counts: Counts, r: Range, value: int, bits: BitString, position: nat, left: nat, symbol: nat)
    requires Shares(share) && IsModel(counts, left) && Settled(r) && Holds(r, value)
    ensures var spec := Rescaled(share, counts, r, value, bits, position, left, symbol);
            if left == 0 then spec == Refuse(Malformed)
            else spec == After([symbol], Decoded(share, counts, r, value, bits, position, left - 1))
  {
  }

  /** Decodes past one symbol: its share's bits are read, and it is counted. */
  method DecodeOne(
    model: CoderModel, input: CoderInput, share: Share, r: Range, value: int, symbol: nat, sub: Range, ghost left: nat)
    returns (read: Outcome<Reading>)
    requires Shares(share) && model.Valid() && input.Valid() && IsModel(model.counts[..], left + 1) && Settled(r)
             && Holds(r, value)
    requires symbol == Find(share, model.counts[..], r, value, 0) && symbol < END_OF_DATA
    requires sub == SubRange(share, model.counts[..], r, symbol)
    modifies model`total, model.counts, input
    ensures model.Valid() && input.Valid()
    ensures read.Accept? ==> IsModel(model.counts[..], left)
    ensures read.Accept? ==> Settled(read.value.range) && Holds(read.value.range, read.value.value)
    ensures var spec := Decoded(share, old(model.counts[..]), r, value, Spread(input.bytes, 8), old(input.Taken()),
            left);
            if read.Refuse? then spec == Refuse(read.code)
            else if left == 0 then spec == Refuse(Malformed)
            else spec == After([symbol], Decoded(share, model.counts[..], read.value.range, read.value.value,
                                                 Spread(input.bytes, 8), input.Taken(), left - 1))
  {
    ghost var counts, bits := model.counts[..], Spread(input.bytes, 8);
    DecodedUnfolds(share, counts, r, value, bits, input.Taken(), left);
    hide Shares, Rescaled, Decoded, IsModel, Find, SubRange, At, After;
    read := ReadSettled(input, share, Counted(counts, symbol), sub, value, left, symbol);
    if read.Accept? {
      model.Update(symbol);
      SettledMeans(share, model.counts[..], read.value.range, read.value.value, bits, input.Taken(), left, symbol);
    }
  }

  /** Decodes symbol after symbol, up to the end marker or the longest data allowed. */
  method DecodeAll(model: CoderModel, input: CoderInput, share: Share, first: Reading) returns (data: Outcome<seq<nat>>)
    requires Shares(share) && model.Valid() && input.Valid() && IsModel(model.counts[..], MAX_INVOICE_DATA_LENGTH + 1)
    requires Settled(first.range) && Holds(first.range, first.value)
    modifies model`total, model.counts, input
    ensures data == Decoded(share, old(model.counts[..]), first.range, first.value, Spread(input.bytes, 8),
                            old(input.Taken()), MAX_INVOICE_DATA_LENGTH)
  {
    hide Shares, Rescaled, Decoded, IsModel, Find, SubRange, At, After, Settled, Holds, Spread;
    ghost var bits := Spread(input.bytes, 8);
    ghost var all := Decoded(share, model.counts[..], first.range, first.value, bits, input.Taken(),
      MAX_INVOICE_DATA_LENGTH);
    var now, out: seq<nat> := first, [];
    AfterBoth([], 0, all);
    while true
      invariant model.Valid() && input.Valid()
      invariant |out| <= MAX_INVOICE_DATA_LENGTH
      invariant IsModel(model.counts[..], MAX_INVOICE_DATA_LENGTH - |out| + 1) && Settled(now.range)
                && Holds(now.range, now.value)
      invariant all == After(out, Decoded(share, model.counts[..], now.range, now.value, bits, input.Taken(),
                                          MAX_INVOICE_DATA_LENGTH - |out|))
      decreases MAX_INVOICE_DATA_LENGTH - |out|
    {
      ghost var left := MAX_INVOICE_DATA_LENGTH - |out|;
      ghost var spec := Decoded(share, model.counts[..], now.range, now.value, bits, input.Taken(), left);
      AfterBoth(out, 0, spec);
      var symbol, sub := model.FindSymbol(share, now.range, now.value);
      if symbol == END_OF_DATA {
        DecodedUnfolds(share, model.counts[..], now.range, now.value, bits, input.Taken(), left);
        AfterEnd(out);
        return Accept(out);
      }
      var read := DecodeOne(model, input, share, now.range, now.value, symbol, sub, left);
      if read.Refuse? {
        return Refuse(read.code);
      }
      now := read.value;
      if left > 0 {
        AfterBoth(out, symbol, Decoded(share, model.counts[..], now.range, now.value, bits, input.Taken(), left - 1));
      }
      out := out + [symbol];
      if |out| > MAX_INVOICE_DATA_LENGTH {
        return Refuse(Malformed);
      }
    }
  }

  /** Decompresses a stream, padding zero bits included, up to the end marker or the longest data allowed. */
  method Decompress(share: Share, compressed: seq<nat>) returns (data: Outcome<seq<nat>>)
    requires Shares(share)
    ensures data == DecodedData(share, Spread(compressed, 8))
  {
    FirstIsModel(MAX_INVOICE_DATA_LENGTH + 1);
    WindowFits(Spread(compressed, 8));
    hide Shares, Decoded, IsModel, Spread, Window, NumberOf, FirstCounts;
    var model := new CoderModel();
    var input := new CoderInput(compressed);
    var value := ReadValue(input);
    data := DecodeAll(model, input, share, Reading(FULL_RANGE, value.value));
  }

  lemma {:induction false} AfterEnd(out: seq<nat>)
    ensures After(out, Accept([])) == Accept(out)
  {
    assert out + [] == out;
  }

  // ---- Back and forth

  /** Decompressing what was compressed gives back the same bytes, up to
      the longest data allowed, and refuses what is longer. */
  lemma {:induction false} CompressedIsDecompressed(share: Share, data: seq<nat>)
    requires Shares(share) && Countable(data)
    ensures DecodedData(share, Spread(Packed(CodedData(share, data)), 8))
            == if |data| <= 16_384 then Accept(data) else Refuse(Malformed)
  {
    TrailingBytesChangeNothing(share, data, []);
    assert Packed(CodedData(share, data)) + [] == Packed(CodedData(share, data));
  }

  /** The stream ends itself: bytes after it change nothing of what it decompresses to. */
  lemma {:induction false} TrailingBytesChangeNothing(share: Share, data: seq<nat>, more: seq<nat>)
    requires Shares(share) && Countable(data)
    ensures DecodedData(share, Spread(Packed(CodedData(share, data)) + more, 8))
            == if |data| <= 16_384 then Accept(data) else Refuse(Malformed)
  {
    hide Shares, Packed, Spread, DecodedData;
    var coded := CodedData(share, data);
    var packed := Packed(coded);
    PackingPads(coded);
    SpreadSplit(packed, more, 8);
    var padding := Zeros(|Spread(packed, 8)| - |coded|);
    assert Spread(packed + more, 8) == coded + (padding + Spread(more, 8));
    DecodesWhatWasCoded(share, data, padding + Spread(more, 8));
  }

  /** In particular for shares computed in floating point. */
  lemma {:induction false} RoundTripInFloats(round: real -> real, data: seq<nat>)
    requires Rounds(round) && Countable(data)
    ensures Shares(RoundedShare(round))
    ensures DecodedData(RoundedShare(round), Spread(Packed(CodedData(RoundedShare(round), data)), 8))
            == if |data| <= 16_384 then Accept(data) else Refuse(Malformed)
  {
    FloatsShare(round);
    CompressedIsDecompressed(RoundedShare(round), data);
  }
}
