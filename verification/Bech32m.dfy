/** The invoice string's bech32m layer: a checksum linear over xor, its writer and its reader. */
module Bech32m {
  import opened Outcomes
  import opened Powers
  import opened BitStrings

  /** A string, one code point after another. */
  type Text = seq<nat>

  const SEPARATOR: nat := 49
  const CHECKSUM_GROUPS: nat := 6
  const BECH32M_CONSTANT: nat := 0x2bc830a3
  const GENERATOR: seq<nat> := [0x3b6a57b2, 0x26508e6d, 0x1ea119fa, 0x3d4233dd, 0x2a1462b3]

  // ---- Thirty-bit words, as their bits

  const WORD: nat := 30

  function Xor(a: BitString, b: BitString): (x: BitString)
    requires |a| == |b|
    ensures |x| == |a| && forall i :: 0 <= i < |a| ==> x[i] == (a[i] != b[i])
  {
    seq(|a|, i requires 0 <= i < |a| => a[i] != b[i])
  }

  /** Shifted left by five, the five highest bits cut off. */
  function Shifted(word: BitString): (shifted: BitString)
    requires |word| == WORD
    ensures |shifted| == WORD
  {
    word[5..] + Zeros(5)
  }

  /** A generator, where the bit of the five highest at its place is set. */
  function Term(word: BitString, n: nat): (term: BitString)
    requires |word| == WORD && n < 5
    ensures |term| == WORD
  {
    if word[4 - n] then BitsOf(GENERATOR[n], WORD) else Zeros(WORD)
  }

  /** The generators of the first places, xored onto a word in turn. */
  function Reduced(word: BitString, mask: BitString, n: nat): (reduced: BitString)
    requires |word| == |mask| == WORD && n <= 5
    ensures |reduced| == WORD
  {
    if n == 0 then word else Xor(Reduced(word, mask, n - 1), Term(mask, n - 1))
  }

  function Step(checksum: BitString, value: BitString): (next: BitString)
    requires |checksum| == |value| == WORD
    ensures |next| == WORD
  {
    Reduced(Xor(Shifted(checksum), value), checksum, 5)
  }

  function Residue(from: BitString, values: seq<nat>): (residue: BitString)
    requires |from| == WORD
    ensures |residue| == WORD
  {
    if values == [] then from else
      var last := |values| - 1;
      Step(Residue(from, values[..last]), BitsOf(values[last], WORD))
  }

  const START: BitString := BitsOf(1, WORD)

  /** The residue after a list of values, one `Step` for each. */
  method Polymod(values: seq<nat>) returns (checksum: BitString)
    ensures checksum == Residue(START, values)
  {
    hide BitsOf;
    checksum := START;
    for i := 0 to |values|
      invariant |checksum| == WORD && checksum == Residue(START, values[..i])
    {
      assert values[..i + 1][..i] == values[..i];
      var before := checksum;
      checksum := Xor(Shifted(checksum), BitsOf(values[i], WORD));
      ghost var shifted := checksum;
      for bit := 0 to 5
        invariant |checksum| == WORD && checksum == Reduced(shifted, before, bit)
      {
        if before[4 - bit] {
          checksum := Xor(checksum, BitsOf(GENERATOR[bit], WORD));
        } else {
          assert checksum == Xor(checksum, Zeros(WORD));
        }
      }
    }
    assert values[..|values|] == values;
  }

  // ---- Linearity

  lemma {:induction false} XorRegroups(a: BitString, b: BitString, c: BitString, d: BitString)
    requires |a| == |b| == |c| == |d|
    ensures Xor(Xor(a, b), Xor(c, d)) == Xor(Xor(a, c), Xor(b, d))
  {
  }

  lemma {:induction false} XorFacts(a: BitString, b: BitString)
    requires |a| == |b|
    ensures Xor(a, Zeros(|a|)) == a && Xor(Zeros(|a|), a) == a
    ensures Xor(a, Xor(a, b)) == b && Xor(a, b) == Xor(b, a)
  {
  }

  lemma {:induction false} TermIsLinear(x: BitString, y: BitString, n: nat)
    requires |x| == |y| == WORD && n < 5
    ensures Term(Xor(x, y), n) == Xor(Term(x, n), Term(y, n))
  {
    hide BitsOf;
  }

  lemma {:induction false} ReducedIsLinear(a: BitString, b: BitString, x: BitString, y: BitString, n: nat)
    requires |a| == |b| == |x| == |y| == WORD && n <= 5
    ensures Reduced(Xor(a, b), Xor(x, y), n) == Xor(Reduced(a, x, n), Reduced(b, y, n))
  {
    hide Xor, Term;
    if n > 0 {
      ReducedIsLinear(a, b, x, y, n - 1);
      TermIsLinear(x, y, n - 1);
      XorRegroups(Reduced(a, x, n - 1), Reduced(b, y, n - 1), Term(x, n - 1), Term(y, n - 1));
    }
  }

  lemma {:induction false} ShiftedIsLinear(a: BitString, b: BitString)
    requires |a| == |b| == WORD
    ensures Shifted(Xor(a, b)) == Xor(Shifted(a), Shifted(b))
  {
  }

  /** One step is linear over xor. */
  lemma {:induction false} StepIsLinear(a: BitString, b: BitString, v: BitString, w: BitString)
    requires |a| == |b| == |v| == |w| == WORD
    ensures Step(Xor(a, b), Xor(v, w)) == Xor(Step(a, v), Step(b, w))
  {
    hide Xor, Reduced, Shifted;
    ShiftedIsLinear(a, b);
    XorRegroups(Shifted(a), Shifted(b), v, w);
    ReducedIsLinear(Xor(Shifted(a), v), Xor(Shifted(b), w), a, b, 5);
  }

  lemma {:induction false} ReducedByNothing(word: BitString, mask: BitString, n: nat)
    requires |word| == |mask| == WORD && n <= 5 && forall i :: 0 <= i < 5 ==> !mask[i]
    ensures Reduced(word, mask, n) == word
  {
    hide Xor, BitsOf;
    if n > 0 {
      ReducedByNothing(word, mask, n - 1);
      XorFacts(word, word);
    }
  }

  /** A word with nothing on top only shifts. */
  lemma {:induction false} SmallStepShifts(word: BitString, value: BitString)
    requires |word| == |value| == WORD && forall i :: 0 <= i < 5 ==> !word[i]
    ensures Step(word, value) == Xor(Shifted(word), value)
  {
    ReducedByNothing(Xor(Shifted(word), value), word, 5);
  }

  lemma {:induction false} ResidueSplit(from: BitString, a: seq<nat>, b: seq<nat>)
    requires |from| == WORD
    ensures Residue(from, a + b) == Residue(Residue(from, a), b)
  {
    hide Step, BitsOf;
    if b == [] {
      assert a + b == a;
    } else {
      var last := |b| - 1;
      assert (a + b)[..|a + b| - 1] == a + b[..last];
      ResidueSplit(from, a, b[..last]);
    }
  }

  // ---- Six groups at the end

  predicate AreGroups(groups: seq<nat>) {
    forall i :: 0 <= i < |groups| ==> groups[i] < 32
  }

  function NoGroups(n: nat): (groups: seq<nat>)
    ensures |groups| == n && forall i :: 0 <= i < n ==> groups[i] == 0
  {
    seq(n, i => 0)
  }

  /** Up to six groups, as the low bits of a word. */
  function Joined(groups: seq<nat>): (word: BitString)
    requires |groups| <= CHECKSUM_GROUPS
    ensures |word| == WORD
  {
    SpanIsProduct(|groups|, 5);
    Zeros(WORD - 5 * |groups|) + Spread(groups, 5)
  }

  lemma {:induction false} NarrowBits(x: nat, width: nat, more: nat)
    requires x < Pow2(width)
    ensures BitsOf(x, width + more) == Zeros(more) + BitsOf(x, width)
  {
    if width == 0 {
      ZeroBits(more);
    } else {
      NarrowBits(x / 2, width - 1, more);
      assert BitsOf(x, width + more) == Zeros(more) + BitsOf(x / 2, width - 1) + [x % 2 == 1];
    }
  }

  lemma {:induction false} ZeroBits(n: nat)
    ensures BitsOf(0, n) == Zeros(n)
  {
    if n > 0 {
      ZeroBits(n - 1);
    }
  }

  lemma {:induction false} JoinedSnoc(groups: seq<nat>)
    requires 0 < |groups| <= CHECKSUM_GROUPS && AreGroups(groups)
    ensures var last := |groups| - 1;
            Joined(groups) == Xor(Shifted(Joined(groups[..last])), BitsOf(groups[last], WORD))
  {
    var last := |groups| - 1;
    assert Pow2(5) == 32;
    NarrowBits(groups[last], 5, 25);
    SpanIsProduct(last, 5);
    SpanIsProduct(|groups|, 5);
    ShiftsIn(Spread(groups[..last], 5), BitsOf(groups[last], 5), last);
    hide BitsOf, Pow2, Xor, Shifted;
  }

  /** Shifting by five and xoring five low bits in appends them. */
  lemma {:induction false} ShiftsIn(high: BitString, low: BitString, n: nat)
    requires n < CHECKSUM_GROUPS && |high| == 5 * n && |low| == 5
    ensures Xor(Shifted(Zeros(WORD - 5 * n) + high), Zeros(25) + low) == Zeros(WORD - 5 * (n + 1)) + (high + low)
  {
    assert Shifted(Zeros(WORD - 5 * n) + high) == Zeros(25 - 5 * n) + high + Zeros(5);
  }

  /** Up to six groups add themselves to what zeros in their place would leave. */
  lemma {:induction false} GroupsAdd(from: BitString, groups: seq<nat>)
    requires |from| == WORD && |groups| <= CHECKSUM_GROUPS && AreGroups(groups)
    ensures Residue(from, groups) == Xor(Residue(from, NoGroups(|groups|)), Joined(groups))
  {
    hide Step, BitsOf, Shifted, Spread;
    if groups == [] {
      XorFacts(from, from);
      assert Joined(groups) == Zeros(WORD);
    } else {
      var last := |groups| - 1;
      GroupsAdd(from, groups[..last]);
      var before := Joined(groups[..last]);
      SmallStepShifts(before, BitsOf(groups[last], WORD));
      JoinedSnoc(groups);
      assert NoGroups(|groups|)[..last] == NoGroups(last);
      ZeroBits(WORD);
      XorFacts(BitsOf(groups[last], WORD), Zeros(WORD));
      hide Joined;
      StepIsLinear(Residue(from, NoGroups(last)), before, Zeros(WORD), BitsOf(groups[last], WORD));
    }
  }

  // ---- The checksum

  /** The UTF-16 unit a code point's value is read from: its own, or its high surrogate. */
  function UnitOf(point: nat): nat {
    if point < 0x10000 then point else 0xD800 + (point - 0x10000) / 1024
  }

  function HighBits(text: Text): (values: seq<nat>)
    ensures |values| == |text|
  {
    seq(|text|, i requires 0 <= i < |text| => UnitOf(text[i]) / 32)
  }

  function LowBits(text: Text): (values: seq<nat>)
    ensures |values| == |text|
  {
    seq(|text|, i requires 0 <= i < |text| => UnitOf(text[i]) % 32)
  }

  /** Every code point contributes two groups, its upper bits before a separating zero and its lower five after. */
  function ExpandHrp(hrp: Text): seq<nat> {
    HighBits(hrp) + [0] + LowBits(hrp)
  }

  function ConstantBits(): (bits: BitString)
    ensures |bits| == WORD
  {
    BitsOf(BECH32M_CONSTANT, WORD)
  }

  /** The residue the six checksum groups spell. */
  function ChecksumBits(hrp: Text, groups: seq<nat>): (bits: BitString)
    ensures |bits| == WORD
  {
    Xor(Residue(START, ExpandHrp(hrp) + groups + NoGroups(CHECKSUM_GROUPS)), ConstantBits())
  }

  lemma {:induction false} SixGroups()
    ensures Span(6, 5) == WORD
  {
    SpanIsProduct(6, 5);
  }

  function Checksum(hrp: Text, groups: seq<nat>): (checksum: seq<nat>)
    ensures |checksum| == CHECKSUM_GROUPS && AreGroups(checksum)
  {
    SixGroups();
    SpreadGather(ChecksumBits(hrp, groups), 6, 5);
    assert Pow2(5) == 32;
    Gather(ChecksumBits(hrp, groups), 6, 5)
  }

  /** What the reader checks. */
  predicate IsChecked(hrp: Text, all: seq<nat>) {
    Residue(START, ExpandHrp(hrp) + all) == ConstantBits()
  }

  /** Xor with one word is the other exactly when xor with the other is the one. */
  lemma {:induction false} XorSolves(zero: BitString, word: BitString, sum: BitString)
    requires |zero| == |word| == |sum|
    ensures Xor(zero, word) == sum <==> word == Xor(zero, sum)
  {
    XorFacts(zero, word);
    XorFacts(zero, sum);
  }

  lemma {:induction false} GroupsAreTheirBits(groups: seq<nat>)
    requires |groups| == CHECKSUM_GROUPS && AreGroups(groups)
    ensures |Spread(groups, 5)| == Span(6, 5) == WORD && Joined(groups) == Spread(groups, 5)
    ensures Gather(Spread(groups, 5), 6, 5) == groups
  {
    SixGroups();
    assert Pow2(5) == 32;
    GatherSpread(groups, 5);
    assert Joined(groups) == Spread(groups, 5);
  }

  lemma {:induction false} BitsAreTheirGroups(bits: BitString)
    requires |bits| == WORD
    ensures Span(6, 5) == WORD && Spread(Gather(bits, 6, 5), 5) == bits
  {
    SixGroups();
    SpreadGather(bits, 6, 5);
  }

  /** Six groups check exactly when they are the ones the writer appends. */
  lemma {:induction false} ChecksOnlyItsChecksum(hrp: Text, groups: seq<nat>, checksum: seq<nat>)
    requires |checksum| == CHECKSUM_GROUPS && AreGroups(checksum)
    ensures IsChecked(hrp, groups + checksum) <==> checksum == Checksum(hrp, groups)
  {
    hide Residue, Spread, Gather, Xor, Joined, BitsOf, ExpandHrp;
    var values := ExpandHrp(hrp) + groups;
    var from, bits := Residue(START, values), ChecksumBits(hrp, groups);
    assert ExpandHrp(hrp) + (groups + checksum) == values + checksum;
    ResidueSplit(START, values, checksum);
    ResidueSplit(START, values, NoGroups(CHECKSUM_GROUPS));
    GroupsAdd(from, checksum);
    XorSolves(Residue(from, NoGroups(CHECKSUM_GROUPS)), Joined(checksum), ConstantBits());
    GroupsAreTheirBits(checksum);
    BitsAreTheirGroups(bits);
  }

  // ---- Writing and reading

  datatype Parts = Parts(hrp: Text, groups: seq<nat>)

  /** The character a group is written as: "qpzry9x8gf2tvdw0s3jn54khce6mua7l", in order. */
  function CharAt(group: nat): nat
    requires group < 32
  {
    match group
    case 0 => 113 case 1 => 112 case 2 => 122 case 3 => 114 case 4 => 121 case 5 => 57 case 6 => 120 case 7 => 56
    case 8 => 103 case 9 => 102 case 10 => 50 case 11 => 116 case 12 => 118 case 13 => 100 case 14 => 119 case 15 => 48
    case 16 => 115 case 17 => 51 case 18 => 106 case 19 => 110 case 20 => 53 case 21 => 52 case 22 => 107 case 23 => 104
    case 24 => 99 case 25 => 101 case 26 => 54 case 27 => 109 case 28 => 117 case 29 => 97 case 30 => 55 case 31 => 108
  }

  /** The group a character stands for, or -1. */
  function IndexFrom(character: nat, from: nat): int
    requires from <= 32
    decreases 32 - from
  {
    if from == 32 then -1 else if CharAt(from) == character then from else IndexFrom(character, from + 1)
  }

  function IndexOf(character: nat): int {
    IndexFrom(character, 0)
  }

  function Written(groups: seq<nat>): (text: Text)
    requires AreGroups(groups)
    ensures |text| == |groups|
  {
    seq(|groups|, i requires 0 <= i < |groups| => CharAt(groups[i]))
  }

  function Encode(hrp: Text, groups: seq<nat>): Text
    requires AreGroups(groups)
  {
    hrp + [SEPARATOR] + Written(groups + Checksum(hrp, groups))
  }

  predicate IsUpper(character: nat) {
    65 <= character <= 90
  }

  predicate HasUpper(text: Text) {
    exists i :: 0 <= i < |text| && IsUpper(text[i])
  }

  /** The last place a character stands, or -1. */
  function LastIndexOf(text: Text, character: nat): (index: int)
    ensures -1 <= index < |text| && (index >= 0 ==> text[index] == character)
    ensures forall i :: index < i < |text| ==> text[i] != character
  {
    if text == [] then -1
    else if text[|text| - 1] == character then |text| - 1
    else LastIndexOf(text[..|text| - 1], character)
  }

  function Indices(text: Text): (indices: seq<int>)
    ensures |indices| == |text|
  {
    seq(|text|, i requires 0 <= i < |text| => IndexOf(text[i]))
  }

  predicate AllFound(indices: seq<int>) {
    forall i :: 0 <= i < |indices| ==> 0 <= indices[i]
  }

  function Decode(text: Text): Outcome<Parts> {
    // Uppercase is another spelling: one invoice, one string.
    if HasUpper(text) then Refuse(Malformed) else
      var separator := LastIndexOf(text, SEPARATOR);
      if separator < 1 then Refuse(Malformed) else
        var hrp, indices := text[..separator], Indices(text[separator + 1..]);
        if !AllFound(indices) then Refuse(Malformed) else
          var groups: seq<nat> := indices;
          if |groups| < CHECKSUM_GROUPS then Refuse(Malformed)
          else if !IsChecked(hrp, groups) then Refuse(Malformed)
          else Accept(Parts(hrp, groups[..|groups| - CHECKSUM_GROUPS]))
  }

  lemma {:induction false} CharactersDiffer(a: nat, b: nat)
    requires a < b < 32
    ensures CharAt(a) != CharAt(b)
  {
  }

  lemma {:induction false} CharactersArePlain(group: nat)
    requires group < 32
    ensures !IsUpper(CharAt(group)) && CharAt(group) != SEPARATOR
  {
  }

  lemma {:induction false} FindsItself(group: nat, from: nat)
    requires from <= group < 32
    ensures IndexFrom(CharAt(group), from) == group
    decreases group - from
  {
    hide CharAt;
    if from < group {
      CharactersDiffer(from, group);
      FindsItself(group, from + 1);
    }
  }

  lemma {:induction false} FoundIsThere(character: nat, from: nat)
    requires from <= 32 && IndexFrom(character, from) >= 0
    ensures from <= IndexFrom(character, from) < 32 && CharAt(IndexFrom(character, from)) == character
    decreases 32 - from
  {
    hide CharAt;
    if CharAt(from) != character {
      FoundIsThere(character, from + 1);
    }
  }

  lemma {:induction false} WrittenIsRead(groups: seq<nat>)
    requires AreGroups(groups)
    ensures Indices(Written(groups)) == groups && !HasUpper(Written(groups))
    ensures forall i :: 0 <= i < |groups| ==> Written(groups)[i] != SEPARATOR
  {
    hide CharAt, IndexFrom;
    forall i | 0 <= i < |groups|
      ensures Indices(Written(groups))[i] == groups[i] && !IsUpper(Written(groups)[i])
              && Written(groups)[i] != SEPARATOR
    {
      FindsItself(groups[i], 0);
      CharactersArePlain(groups[i]);
    }
  }

  lemma {:induction false} ReadIsWritten(text: Text)
    requires AllFound(Indices(text))
    ensures AreGroups(Indices(text)) && Written(Indices(text)) == text
  {
    hide CharAt, IndexFrom;
    forall i | 0 <= i < |text|
      ensures Indices(text)[i] < 32 && CharAt(Indices(text)[i]) == text[i]
    {
      FoundIsThere(text[i], 0);
    }
  }

  lemma {:induction false} LastSeparator(hrp: Text, rest: Text)
    requires forall i :: 0 <= i < |rest| ==> rest[i] != SEPARATOR
    ensures LastIndexOf(hrp + [SEPARATOR] + rest, SEPARATOR) == |hrp|
  {
    var text := hrp + [SEPARATOR] + rest;
    assert text[|hrp|] == SEPARATOR;
    assert forall i :: |hrp| < i < |text| ==> text[i] == rest[i - |hrp| - 1];
  }

  lemma {:induction false} LowercaseTogether(hrp: Text, rest: Text)
    requires !HasUpper(hrp) && !HasUpper(rest)
    ensures !HasUpper(hrp + [SEPARATOR] + rest)
  {
    var text := hrp + [SEPARATOR] + rest;
    assert forall i :: 0 <= i < |text| ==>
      text[i] == if i < |hrp| then hrp[i] else if i == |hrp| then SEPARATOR else rest[i - |hrp| - 1];
  }

  lemma {:induction false} Cuts(hrp: Text, rest: Text)
    ensures var text := hrp + [SEPARATOR] + rest;
            text[..|hrp|] == hrp && text[|hrp| + 1..] == rest
  {
  }

  /** The reader gives back the parts of every string the writer wrote. */
  lemma {:induction false} DecodesWhatWasEncoded(hrp: Text, groups: seq<nat>)
    requires hrp != [] && !HasUpper(hrp) && AreGroups(groups)
    ensures Decode(Encode(hrp, groups)) == Accept(Parts(hrp, groups))
  {
    hide IsChecked, Checksum, Written, Indices, LastIndexOf, HasUpper;
    var all := groups + Checksum(hrp, groups);
    WrittenIsRead(all);
    LastSeparator(hrp, Written(all));
    LowercaseTogether(hrp, Written(all));
    Cuts(hrp, Written(all));
    ChecksOnlyItsChecksum(hrp, groups, Checksum(hrp, groups));
    assert all[..|all| - CHECKSUM_GROUPS] == groups;
  }

  lemma {:induction false} Rejoins(text: Text, separator: int)
    requires 0 <= separator < |text| && text[separator] == SEPARATOR
    ensures text == text[..separator] + [SEPARATOR] + text[separator + 1..]
  {
  }

  /** Every string the reader accepts is the one the writer writes for its parts. */
  lemma {:induction false} EncodesWhatWasDecoded(text: Text)
    requires Decode(text).Accept?
    ensures var parts := Decode(text).value;
            && parts.hrp != [] && !HasUpper(parts.hrp) && AreGroups(parts.groups)
            && Encode(parts.hrp, parts.groups) == text
  {
    hide IsChecked, Checksum, Written, Indices, LastIndexOf;
    var separator := LastIndexOf(text, SEPARATOR);
    var hrp, rest := text[..separator], text[separator + 1..];
    var all := Indices(rest);
    ReadIsWritten(rest);
    var groups, checksum := all[..|all| - CHECKSUM_GROUPS], all[|all| - CHECKSUM_GROUPS..];
    assert all == groups + checksum;
    ChecksOnlyItsChecksum(hrp, groups, checksum);
    Rejoins(text, separator);
    assert !HasUpper(hrp) by {
      assert forall i :: 0 <= i < |hrp| ==> hrp[i] == text[i];
    }
  }
}
