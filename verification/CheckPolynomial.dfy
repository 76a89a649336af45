/** The checksum as a polynomial's remainder: groups are elements of the field of 32,
    and one step multiplies by x and takes off the generator BIP-173 names. */
module CheckPolynomial {
  import opened Outcomes
  import opened Powers
  import opened BitStrings
  import opened Groups
  import opened Bech32m

  // ---- The field of 32

  function Differ(a: nat, b: nat): (d: nat)
    ensures d < 2
  {
    if a % 2 != b % 2 then 1 else 0
  }

  /** The sum: the bits that differ. */
  function Plus(a: nat, b: nat): (sum: nat)
    ensures sum < 32
  {
    16 * Differ(a / 16, b / 16) + 8 * Differ(a / 8, b / 8) + 4 * Differ(a / 4, b / 4) + 2 * Differ(a / 2, b / 2)
      + Differ(a, b)
  }

  /** Twice an element, a root of x^5 + x^3 + 1 standing for two. */
  function Twice(a: nat): nat
    requires a < 32
  {
    if a < 16 then 2 * a else Plus(2 * a - 32, 9)
  }

  function Doubled(a: nat, times: nat): (d: nat)
    requires a < 32
    ensures d < 32
  {
    if times == 0 then a else Twice(Doubled(a, times - 1))
  }

  /** A sum and a product: `t` times `a`, bit by bit of `t`, on top of `s`. */
  function PlusProduct(s: nat, t: nat, a: nat, bits: nat): (r: nat)
    requires s < 32 && a < 32
    ensures r < 32
  {
    if bits == 0 then s else
      Plus(PlusProduct(s, t, a, bits - 1), if t / Pow2(bits - 1) % 2 == 1 then Doubled(a, bits - 1) else 0)
  }

  /** x^6 + 29x^5 + 22x^4 + 20x^3 + 21x^2 + 29x + 18, below its first term. */
  const POLYNOMIAL: seq<nat> := [29, 22, 20, 21, 29, 18]

  /** A polynomial times x, plus a constant, less the generator as often as it goes into it. */
  function Divided(word: seq<nat>, value: nat): (rest: seq<nat>)
    requires |word| == 6 && AreGroups(word) && value < 32
    ensures |rest| == 6 && AreGroups(rest)
  {
    [PlusProduct(word[1], word[0], 29, 5), PlusProduct(word[2], word[0], 22, 5), PlusProduct(word[3], word[0], 20, 5),
     PlusProduct(word[4], word[0], 21, 5), PlusProduct(word[5], word[0], 29, 5), PlusProduct(value, word[0], 18, 5)]
  }

  // ---- Groups and their bits

  lemma {:induction false} FiveBits(a: nat)
    requires a < 32
    ensures BitsOf(a, 5) == [a / 16 % 2 == 1, a / 8 % 2 == 1, a / 4 % 2 == 1, a / 2 % 2 == 1, a % 2 == 1]
  {
    forall i: nat | i < 5
      ensures BitsOf(a, 5)[i] == [a / 16 % 2 == 1, a / 8 % 2 == 1, a / 4 % 2 == 1, a / 2 % 2 == 1, a % 2 == 1][i]
    {
      BitAtShift(a, 5, i);
      PowersOfTwo();
    }
  }

  lemma {:induction false} BitsOfSum(p: nat, q: nat, r: nat, s: nat, t: nat)
    requires p < 2 && q < 2 && r < 2 && s < 2 && t < 2
    ensures var sum := 16 * p + 8 * q + 4 * r + 2 * s + t;
            sum / 16 % 2 == p && sum / 8 % 2 == q && sum / 4 % 2 == r && sum / 2 % 2 == s && sum % 2 == t
  {
    var sum := 16 * p + 8 * q + 4 * r + 2 * s + t;
    assert sum / 16 == p && sum / 8 == 2 * p + q && sum / 4 == 4 * p + 2 * q + r
           && sum / 2 == 8 * p + 4 * q + 2 * r + s;
  }

  lemma {:induction false} PlusBits(a: nat, b: nat)
    ensures var sum := Plus(a, b);
            && sum / 16 % 2 == Differ(a / 16, b / 16) && sum / 8 % 2 == Differ(a / 8, b / 8)
            && sum / 4 % 2 == Differ(a / 4, b / 4) && sum / 2 % 2 == Differ(a / 2, b / 2) && sum % 2 == Differ(a, b)
  {
    hide Differ;
    BitsOfSum(Differ(a / 16, b / 16), Differ(a / 8, b / 8), Differ(a / 4, b / 4), Differ(a / 2, b / 2), Differ(a, b));
  }

  lemma {:induction false} PlusIsXor(a: nat, b: nat)
    requires a < 32 && b < 32
    ensures BitsOf(Plus(a, b), 5) == Xor(BitsOf(a, 5), BitsOf(b, 5))
  {
    hide BitsOf, Plus;
    FiveBits(a);
    FiveBits(b);
    FiveBits(Plus(a, b));
    PlusBits(a, b);
  }

  /** Group by group sums are the words' xor. */
  function Sums(a: seq<nat>, b: seq<nat>): (sums: seq<nat>)
    requires |a| == |b|
    ensures |sums| == |a| && forall i :: 0 <= i < |a| ==> sums[i] == Plus(a[i], b[i])
  {
    seq(|a|, i requires 0 <= i < |a| => Plus(a[i], b[i]))
  }

  lemma {:induction false} SumsAreXor(a: seq<nat>, b: seq<nat>)
    requires |a| == |b| && AreGroups(a) && AreGroups(b)
    ensures Spread(Sums(a, b), 5) == Xor(Spread(a, 5), Spread(b, 5))
  {
    hide BitsOf, Plus;
    if a != [] {
      var last := |a| - 1;
      SumsAreXor(a[..last], b[..last]);
      PlusIsXor(a[last], b[last]);
      assert Sums(a, b)[..last] == Sums(a[..last], b[..last]);
    }
  }

  /** Six groups as one number. */
  function WordOf(a: nat, b: nat, c: nat, d: nat, e: nat, f: nat): nat {
    ((((a * 32 + b) * 32 + c) * 32 + d) * 32 + e) * 32 + f
  }

  lemma {:induction false} NumberOfMore(groups: seq<nat>, group: nat)
    requires group < 32
    ensures NumberOf(Spread(groups + [group], 5)) == NumberOf(Spread(groups, 5)) * 32 + group
  {
    PowersOfTwo();
    SpreadSnoc(groups, group, 5);
    NumberOfBits(group, 5);
    JoinedNumber(Spread(groups, 5), BitsOf(group, 5));
  }

  lemma {:induction false} SixSpell(a: nat, b: nat, c: nat, d: nat, e: nat, f: nat)
    requires a < 32 && b < 32 && c < 32 && d < 32 && e < 32 && f < 32
    ensures BitsOf(WordOf(a, b, c, d, e, f), WORD) == Spread([a, b, c, d, e, f], 5)
  {
    hide BitsOf, NumberOf, Spread;
    var none: seq<nat> := [];
    NumberOfMore(none, a);
    NumberOfMore([a], b);
    NumberOfMore([a, b], c);
    NumberOfMore([a, b, c], d);
    NumberOfMore([a, b, c, d], e);
    NumberOfMore([a, b, c, d, e], f);
    assert none + [a] == [a] && [a] + [b] == [a, b] && [a, b] + [c] == [a, b, c] && [a, b, c] + [d] == [a, b, c, d];
    assert [a, b, c, d] + [e] == [a, b, c, d, e] && [a, b, c, d, e] + [f] == [a, b, c, d, e, f];
    SpreadsNothing();
    NumberOfNothing();
    SpanIsProduct(6, 5);
    BitsOfNumber(Spread([a, b, c, d, e, f], 5));
  }

  lemma {:induction false} NumberOfNothing()
    ensures NumberOf([]) == 0
  {
  }

  lemma {:induction false} DoublingsOf(a: nat, b: nat, c: nat, d: nat, e: nat)
    requires a < 32 && b < 32 && c < 32 && d < 32
    requires Twice(a) == b && Twice(b) == c && Twice(c) == d && Twice(d) == e
    ensures Doubled(a, 0) == a && Doubled(a, 1) == b && Doubled(a, 2) == c && Doubled(a, 3) == d && Doubled(a, 4) == e
  {
    hide Twice;
    assert Doubled(a, 0) == a;
    assert Doubled(a, 1) == b;
    assert Doubled(a, 2) == c;
    assert Doubled(a, 3) == d;
  }

  lemma {:induction false} SomeTwices()
    ensures Twice(29) == 19 && Twice(19) == 15 && Twice(30) == 21 && Twice(22) == 5
  {
    assert Plus(26, 9) == 19 && Plus(6, 9) == 15 && Plus(28, 9) == 21 && Plus(12, 9) == 5;
  }

  lemma {:induction false} OtherTwices()
    ensures Twice(20) == 1 && Twice(21) == 3 && Twice(18) == 13 && Twice(26) == 29
  {
    assert Plus(8, 9) == 1 && Plus(10, 9) == 3 && Plus(4, 9) == 13 && Plus(20, 9) == 29;
  }

  lemma {:induction false} Doublings()
    ensures Doubled(29, 0) == 29 && Doubled(29, 1) == 19 && Doubled(29, 2) == 15 && Doubled(29, 3) == 30
            && Doubled(29, 4) == 21
    ensures Doubled(22, 0) == 22 && Doubled(22, 1) == 5 && Doubled(22, 2) == 10 && Doubled(22, 3) == 20
            && Doubled(22, 4) == 1
    ensures Doubled(20, 0) == 20 && Doubled(20, 1) == 1 && Doubled(20, 2) == 2 && Doubled(20, 3) == 4
            && Doubled(20, 4) == 8
    ensures Doubled(21, 0) == 21 && Doubled(21, 1) == 3 && Doubled(21, 2) == 6 && Doubled(21, 3) == 12
            && Doubled(21, 4) == 24
    ensures Doubled(18, 0) == 18 && Doubled(18, 1) == 13 && Doubled(18, 2) == 26 && Doubled(18, 3) == 29
            && Doubled(18, 4) == 19
  {
    hide Plus, Doubled;
    SomeTwices();
    OtherTwices();
    DoublingsOf(29, 19, 15, 30, 21);
    DoublingsOf(22, 5, 10, 20, 1);
    DoublingsOf(20, 1, 2, 4, 8);
    DoublingsOf(21, 3, 6, 12, 24);
    DoublingsOf(18, 13, 26, 29, 19);
  }

  lemma {:induction false} GeneratorSpells(n: nat, a: nat, b: nat, c: nat, d: nat, e: nat)
    requires n < 5 && a == Doubled(29, n) && b == Doubled(22, n) && c == Doubled(20, n) && d == Doubled(21, n)
    requires e == Doubled(18, n) && WordOf(a, b, c, d, a, e) == GENERATOR[n]
    ensures BitsOf(GENERATOR[n], WORD) == Spread(seq(6, k requires 0 <= k < 6 => Doubled(POLYNOMIAL[k], n)), 5)
  {
    hide WordOf, Doubled, BitsOf, Spread, GENERATOR;
    SixSpell(a, b, c, d, a, e);
    assert [a, b, c, d, a, e] == seq(6, k requires 0 <= k < 6 => Doubled(POLYNOMIAL[k], n));
  }

  /** The five words of the checksum are the polynomial, doubled so often. */
  lemma {:induction false} GeneratorIsThePolynomial(n: nat)
    requires n < 5
    ensures BitsOf(GENERATOR[n], WORD) == Spread(seq(6, k requires 0 <= k < 6 => Doubled(POLYNOMIAL[k], n)), 5)
  {
    hide Doubled, BitsOf, Spread;
    Doublings();
    if n == 0 {
      GeneratorSpells(0, 29, 22, 20, 21, 18);
    } else if n == 1 {
      GeneratorSpells(1, 19, 5, 1, 3, 13);
    } else if n == 2 {
      GeneratorSpells(2, 15, 10, 2, 6, 26);
    } else if n == 3 {
      GeneratorSpells(3, 30, 20, 4, 12, 29);
    } else {
      GeneratorSpells(4, 21, 1, 8, 24, 19);
    }
  }

  // ---- One step

  lemma {:induction false} ShiftedSpreads(word: seq<nat>)
    requires |word| == 6 && AreGroups(word)
    ensures |Spread(word, 5)| == WORD
    ensures Shifted(Spread(word, 5)) == Spread(word[1..] + [0], 5)
    ensures forall n :: 0 <= n < 5 ==> (Spread(word, 5)[4 - n] <==> word[0] / Pow2(n) % 2 == 1)
  {
    hide BitsOf, Pow2;
    SpanIsProduct(6, 5);
    SpanIsProduct(1, 5);
    assert word == [word[0]] + word[1..];
    SpreadSplit([word[0]], word[1..], 5);
    SpreadSnoc(word[1..], 0, 5);
    ZeroBits(5);
    SpreadsNothing();
    assert [] + [word[0]] == [word[0]];
    SpreadSnoc([], word[0], 5);
    forall n | 0 <= n < 5
      ensures Spread(word, 5)[4 - n] <==> word[0] / Pow2(n) % 2 == 1
    {
      BitAtShift(word[0], 5, 4 - n);
    }
  }

  /** The generators taken off after so many bits of the highest group. */
  function TakenOff(from: seq<nat>, top: nat, bits: nat): (rest: seq<nat>)
    requires |from| == 6 && AreGroups(from)
    ensures |rest| == 6 && AreGroups(rest)
  {
    seq(6, k requires 0 <= k < 6 => PlusProduct(from[k], top, POLYNOMIAL[k], bits))
  }

  lemma {:induction false} ReducedSpreads(from: seq<nat>, word: seq<nat>, bits: nat)
    requires |from| == |word| == 6 && AreGroups(from) && AreGroups(word) && bits <= 5
    ensures |Spread(from, 5)| == WORD && |Spread(word, 5)| == WORD
    ensures Reduced(Spread(from, 5), Spread(word, 5), bits) == Spread(TakenOff(from, word[0], bits), 5)
  {
    hide BitsOf, Pow2, Doubled, Plus, Spread, Xor;
    SpanIsProduct(6, 5);
    if bits == 0 {
      assert TakenOff(from, word[0], 0) == from;
    } else {
      var n := bits - 1;
      ReducedSpreads(from, word, n);
      ShiftedSpreads(word);
      GeneratorIsThePolynomial(n);
      var taken := word[0] / Pow2(n) % 2 == 1;
      var term := seq(6, k requires 0 <= k < 6 => if taken then Doubled(POLYNOMIAL[k], n) else 0);
      TermSpreads(word, n, term);
      SumsAreXor(TakenOff(from, word[0], n), term);
      assert TakenOff(from, word[0], bits) == Sums(TakenOff(from, word[0], n), term);
    }
  }

  lemma {:induction false} TermSpreads(word: seq<nat>, n: nat, term: seq<nat>)
    requires |word| == |term| == 6 && AreGroups(word) && n < 5
    requires forall k :: 0 <= k < 6 ==>
               term[k] == if word[0] / Pow2(n) % 2 == 1 then Doubled(POLYNOMIAL[k], n) else 0
    ensures AreGroups(term) && |Spread(word, 5)| == WORD && Term(Spread(word, 5), n) == Spread(term, 5)
  {
    hide BitsOf, Pow2, Doubled, Spread;
    ShiftedSpreads(word);
    GeneratorIsThePolynomial(n);
    if word[0] / Pow2(n) % 2 == 1 {
      assert term == seq(6, k requires 0 <= k < 6 => Doubled(POLYNOMIAL[k], n));
    } else {
      assert term == [0, 0, 0, 0, 0, 0];
      SixSpell(0, 0, 0, 0, 0, 0);
      ZeroBits(WORD);
    }
  }

  /** One step of the checksum is one step of the division. */
  lemma {:induction false} StepDivides(word: seq<nat>, value: nat)
    requires |word| == 6 && AreGroups(word) && value < 32
    ensures |Spread(word, 5)| == WORD
    ensures Step(Spread(word, 5), BitsOf(value, WORD)) == Spread(Divided(word, value), 5)
  {
    hide BitsOf, PlusProduct, Spread, Reduced, Xor, Shifted;
    SpanIsProduct(6, 5);
    ShiftedSpreads(word);
    SixSpell(0, 0, 0, 0, 0, value);
    var shifted := word[1..] + [0];
    SumsAreXor(shifted, [0, 0, 0, 0, 0, value]);
    var from := word[1..] + [value];
    assert Sums(shifted, [0, 0, 0, 0, 0, value]) == from by {
      forall k | 0 <= k < 6
        ensures Plus(shifted[k], [0, 0, 0, 0, 0, value][k]) == from[k]
      {
        PlusNothing(shifted[k]);
        PlusNothing(value);
      }
    }
    ReducedSpreads(from, word, 5);
    assert TakenOff(from, word[0], 5) == Divided(word, value);
  }

  lemma {:induction false} PlusNothing(a: nat)
    requires a < 32
    ensures Plus(a, 0) == a && Plus(0, a) == a
  {
    hide BitsOf, Plus, Xor;
    PlusIsXor(a, 0);
    PlusIsXor(0, a);
    ZeroBits(5);
    XorFacts(BitsOf(a, 5), BitsOf(a, 5));
    PowersOfTwo();
    NumberOfBits(a, 5);
    NumberOfBits(Plus(a, 0), 5);
    NumberOfBits(Plus(0, a), 5);
  }

  /** What is left of a polynomial after a list of values, one after another. */
  function Remainder(from: seq<nat>, values: seq<nat>): (rest: seq<nat>)
    requires |from| == 6 && AreGroups(from) && AreGroups(values)
    ensures |rest| == 6 && AreGroups(rest)
  {
    if values == [] then from else Divided(Remainder(from, values[..|values| - 1]), values[|values| - 1])
  }

  /** The residue of any list of groups is its polynomial's remainder. */
  lemma {:induction false} ResidueIsRemainder(from: seq<nat>, values: seq<nat>)
    requires |from| == 6 && AreGroups(from) && AreGroups(values)
    ensures |Spread(from, 5)| == WORD
    ensures Residue(Spread(from, 5), values) == Spread(Remainder(from, values), 5)
  {
    hide Step, Divided, Spread, BitsOf;
    SpanIsProduct(6, 5);
    if values != [] {
      var last := |values| - 1;
      ResidueIsRemainder(from, values[..last]);
      StepDivides(Remainder(from, values[..last]), values[last]);
    }
  }

  // ---- What is checked

  lemma {:induction false} SpreadsApart(a: seq<nat>, b: seq<nat>)
    requires |a| == |b| && AreGroups(a) && AreGroups(b) && Spread(a, 5) == Spread(b, 5)
    ensures a == b
  {
    hide Spread, Gather;
    PowersOfTwo();
    GatherSpread(a, 5);
    GatherSpread(b, 5);
  }

  /** A string of groups is checked exactly when 21x^5 + 28x^4 + 16x^3 + 12x^2 + 5x + 3 is left of it: of one, the
      head's high and low bits, and the groups, each a coefficient. A head of characters from 1024 on has coefficients
      outside the field. */
  lemma {:induction false} CheckedExactly(hrp: Text, all: seq<nat>)
    requires AreGroups(all) && forall i :: 0 <= i < |hrp| ==> hrp[i] < 1024
    ensures AreGroups(ExpandHrp(hrp) + all)
    ensures IsChecked(hrp, all) <==> Remainder([0, 0, 0, 0, 0, 1], ExpandHrp(hrp) + all) == [21, 28, 16, 12, 5, 3]
  {
    hide Residue, BitsOf, Spread, Remainder, ExpandHrp, START, ConstantBits;
    var values := ExpandHrp(hrp) + all;
    ExpandedFits(hrp);
    StartAndConstant();
    ResidueIsRemainder([0, 0, 0, 0, 0, 1], values);
    if Spread(Remainder([0, 0, 0, 0, 0, 1], values), 5) == Spread([21, 28, 16, 12, 5, 3], 5) {
      SpreadsApart(Remainder([0, 0, 0, 0, 0, 1], values), [21, 28, 16, 12, 5, 3]);
    }
  }

  lemma {:induction false} ExpandedFits(hrp: Text)
    requires forall i :: 0 <= i < |hrp| ==> hrp[i] < 1024
    ensures AreGroups(ExpandHrp(hrp))
  {
  }

  lemma {:induction false} StartAndConstant()
    ensures START == Spread([0, 0, 0, 0, 0, 1], 5) && ConstantBits() == Spread([21, 28, 16, 12, 5, 3], 5)
  {
    hide BitsOf, Spread;
    SixSpell(0, 0, 0, 0, 0, 1);
    SixSpell(21, 28, 16, 12, 5, 3);
    assert WordOf(0, 0, 0, 0, 0, 1) == 1 && WordOf(21, 28, 16, 12, 5, 3) == BECH32M_CONSTANT;
  }
}
