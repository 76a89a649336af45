/** The search for the TLCs to charge, exact over every subset of what left. */
module ChargeSearch {
  import opened Outcomes
  import opened Payments
  import opened Powers

  /** The search is not run on longer lists: `Charged` takes them whole. */
  const MAX_EXACT_CHARGE_TLCS: nat := 12

  /** Bit `index` of a mask, as a shift and a mask with one read it. */
  predicate Bit(mask: nat, index: nat) {
    if index == 0 then mask % 2 == 1 else Bit(mask / 2, index - 1)
  }

  function SumAt(amounts: seq<nat>, indices: set<nat>): nat {
    if amounts == [] then 0 else
      var last := |amounts| - 1;
      SumAt(amounts[..last], indices) + if last in indices then amounts[last] else 0
  }

  /** A non-empty set of departed TLCs whose sum explains what the holdings fell by. */
  ghost predicate Accounts(amounts: seq<nat>, indices: set<nat>, lowest: int, highest: int) {
    indices != {} && (forall i :: i in indices ==> i < |amounts|) && lowest <= SumAt(amounts, indices) <= highest
  }

  /** Every TLC some explanation names. */
  ghost function Chargeable(amounts: seq<nat>, lowest: int, highest: int): set<nat> {
    set i | 0 <= i < |amounts| && IsNamed(amounts, i, lowest, highest)
  }

  ghost predicate IsNamed(amounts: seq<nat>, i: nat, lowest: int, highest: int) {
    exists s :: i in s && Accounts(amounts, s, lowest, highest)
  }

  ghost function UpTo(n: nat): (all: set<nat>)
    ensures forall i: nat :: i in all <==> i < n
  {
    if n == 0 then {} else UpTo(n - 1) + {n - 1}
  }

  ghost function Bits(mask: nat, n: nat): set<nat> {
    set i | 0 <= i < n && Bit(mask, i)
  }

  ghost function MaskOf(indices: set<nat>, from: nat, n: nat): nat
    decreases n
  {
    if n == 0 then 0 else (if from in indices then 1 else 0) + 2 * MaskOf(indices, from + 1, n - 1)
  }

  lemma {:induction false} MaskHasBits(indices: set<nat>, from: nat, n: nat)
    ensures MaskOf(indices, from, n) < Pow2(n)
    ensures forall i :: 0 <= i < n ==> (Bit(MaskOf(indices, from, n), i) <==> from + i in indices)
    decreases n
  {
    if n > 0 {
      MaskHasBits(indices, from + 1, n - 1);
      var rest := MaskOf(indices, from + 1, n - 1);
      assert MaskOf(indices, from, n) / 2 == rest;
      forall i | 0 <= i < n
        ensures Bit(MaskOf(indices, from, n), i) <==> from + i in indices
      {
        if i > 0 {
          assert Bit(MaskOf(indices, from, n), i) <==> Bit(rest, i - 1);
        }
      }
    }
  }

  /** Counting masks up from one meets every non-empty subset. */
  lemma {:induction false} EverySubsetIsCounted(indices: set<nat>, n: nat)
    requires indices != {}
    requires forall i :: i in indices ==> i < n
    ensures exists mask :: 1 <= mask < Pow2(n) && Bits(mask, n) == indices
  {
    var mask := MaskOf(indices, 0, n);
    MaskHasBits(indices, 0, n);
    assert Bits(mask, n) == indices;
    if mask == 0 {
      var i :| i in indices;
      ZeroHasNoBits(i);
      assert false;
    }
  }

  lemma {:induction false} ZeroHasNoBits(i: nat)
    ensures !Bit(0, i)
  {
    if i > 0 {
      ZeroHasNoBits(i - 1);
    }
  }

  lemma {:induction false} SumAtAgrees(amounts: seq<nat>, a: set<nat>, b: set<nat>)
    requires forall i :: 0 <= i < |amounts| ==> (i in a <==> i in b)
    ensures SumAt(amounts, a) == SumAt(amounts, b)
  {
    if amounts != [] {
      SumAtAgrees(amounts[..|amounts| - 1], a, b);
    }
  }

  /** The search: every mask's subset is summed, and the members of one that fits are all charged. */
  method Search(amounts: seq<nat>, lowest: int, highest: int) returns (charged: set<nat>)
    ensures charged == Chargeable(amounts, lowest, highest)
  {
    var n := |amounts|;
    var limit := Pow2(n);
    charged := {};
    var mask := 1;
    while mask < limit
      invariant 1 <= mask
      invariant forall i :: i in charged ==> 0 <= i < n
      invariant forall i :: i in charged ==>
                exists m :: 1 <= m < mask && i in Bits(m, n) && Accounts(amounts, Bits(m, n), lowest, highest)
      invariant forall m, i :: 1 <= m < mask && i in Bits(m, n) && Accounts(amounts, Bits(m, n), lowest, highest) ==>
                i in charged
    {
      var sum := 0;
      for index := 0 to n
        invariant sum == SumAt(amounts[..index], Bits(mask, n))
      {
        assert amounts[..index + 1][..index] == amounts[..index];
        if Bit(mask, index) {
          sum := sum + amounts[index];
        }
      }
      assert amounts[..n] == amounts;
      if lowest <= sum <= highest {
        ghost var before := charged;
        for index := 0 to n
          invariant charged == before + set i | 0 <= i < index && Bit(mask, i)
        {
          if Bit(mask, index) {
            charged := charged + {index};
          }
        }
        assert charged == before + Bits(mask, n);
        assert Bits(mask, n) != {} ==> Accounts(amounts, Bits(mask, n), lowest, highest);
      }
      mask := mask + 1;
    }
    forall i, s | 0 <= i < n && i in s && Accounts(amounts, s, lowest, highest)
      ensures i in charged
    {
      EverySubsetIsCounted(s, n);
    }
  }

  function OfferedOf(tlcs: seq<Tlc>): seq<Tlc> {
    if tlcs == [] then [] else (if tlcs[0].direction.Offered? then [tlcs[0]] else []) + OfferedOf(tlcs[1..])
  }

  function Amounts(tlcs: seq<Tlc>): seq<nat> {
    seq(|tlcs|, i requires 0 <= i < |tlcs| => tlcs[i].amount)
  }

  /** The entries of a list at the indices of a set, in order. */
  function Pick(tlcs: seq<Tlc>, indices: set<nat>): seq<Tlc> {
    if tlcs == [] then [] else
      var last := |tlcs| - 1;
      Pick(tlcs[..last], indices) + if last in indices then [tlcs[last]] else []
  }

  /** The TLCs to charge for a fall in holdings, or a refusal when no set of those that left accounts for it. */
  ghost function Charged(left: seq<Tlc>, shortfall: int, uncredited: nat): Outcome<seq<Tlc>> {
    var offered := OfferedOf(left);
    var highest := shortfall + uncredited;
    if Total(offered, OFFERED) < shortfall then Refuse(PolicyRefusal)
    else if offered == [] || highest <= 0 then Accept([])
    else if |offered| > MAX_EXACT_CHARGE_TLCS then Accept(offered)
    else
      var charged := Chargeable(Amounts(offered), Max(shortfall, 0), highest);
      if charged == {} && shortfall > 0 then Refuse(PolicyRefusal) else Accept(Pick(offered, charged))
  }

  method ChargedTlcs(left: seq<Tlc>, shortfall: int, uncredited: nat) returns (r: Outcome<seq<Tlc>>)
    ensures r == Charged(left, shortfall, uncredited)
  {
    var offered := OfferedOf(left);
    var total := Total(offered, OFFERED);
    if total < shortfall {
      return Refuse(PolicyRefusal);
    }
    var lowest := Max(shortfall, 0);
    var highest := shortfall + uncredited;
    if |offered| == 0 || highest <= 0 {
      return Accept([]);
    }
    if |offered| > MAX_EXACT_CHARGE_TLCS {
      return Accept(offered);
    }
    var charged := Search(Amounts(offered), lowest, highest);
    if charged == {} && shortfall > 0 {
      return Refuse(PolicyRefusal);
    }
    return Accept(Pick(offered, charged));
  }

  // ---- Soundness

  lemma {:induction false} PickedAmount(tlcs: seq<Tlc>, indices: set<nat>)
    requires forall tlc :: tlc in tlcs ==> tlc.direction.Offered?
    ensures Total(Pick(tlcs, indices), OFFERED) == SumAt(Amounts(tlcs), indices)
  {
    if tlcs != [] {
      var last := |tlcs| - 1;
      PickedAmount(tlcs[..last], indices);
      assert Amounts(tlcs)[..last] == Amounts(tlcs[..last]);
      if last in indices {
        TotalSnoc(Pick(tlcs[..last], indices), tlcs[last], OFFERED);
      } else {
        assert Pick(tlcs, indices) == Pick(tlcs[..last], indices);
      }
    }
  }

  lemma {:induction false} PickedWithin(tlcs: seq<Tlc>, indices: set<nat>, select: Tlc -> bool)
    ensures Total(Pick(tlcs, indices), select) <= Total(tlcs, select)
    ensures forall tlc :: tlc in Pick(tlcs, indices) ==> tlc in tlcs
  {
    if tlcs != [] {
      var last := |tlcs| - 1;
      PickedWithin(tlcs[..last], indices, select);
      assert tlcs == tlcs[..last] + [tlcs[last]];
      TotalSnoc(tlcs[..last], tlcs[last], select);
      TotalSnoc(Pick(tlcs[..last], indices), tlcs[last], select);
      assert Pick(tlcs[..last], indices) + [] == Pick(tlcs[..last], indices);
    }
  }

  lemma {:induction false} SumAtWider(amounts: seq<nat>, a: set<nat>, b: set<nat>)
    requires a <= b
    ensures SumAt(amounts, a) <= SumAt(amounts, b)
  {
    if amounts != [] {
      SumAtWider(amounts[..|amounts| - 1], a, b);
    }
  }

  lemma {:induction false} OfferedOfFacts(tlcs: seq<Tlc>)
    ensures forall tlc :: tlc in OfferedOf(tlcs) <==> tlc in tlcs && tlc.direction.Offered?
    ensures Total(OfferedOf(tlcs), OFFERED) == Total(tlcs, OFFERED)
  {
    if tlcs != [] {
      OfferedOfFacts(tlcs[1..]);
      TotalSplit(if tlcs[0].direction.Offered? then [tlcs[0]] else [], OfferedOf(tlcs[1..]), OFFERED);
    }
  }

  lemma {:induction false} OfferedUnderOf(tlcs: seq<Tlc>, bound: Bound)
    ensures Total(OfferedOf(tlcs), OfferedUnder(bound)) == Total(tlcs, OfferedUnder(bound))
  {
    if tlcs != [] {
      OfferedUnderOf(tlcs[1..], bound);
      TotalSplit(if tlcs[0].direction.Offered? then [tlcs[0]] else [], OfferedOf(tlcs[1..]), OfferedUnder(bound));
    }
  }

  /** The charged TLCs cover the shortfall, and each is one that left, counted as often. */
  lemma {:induction false} ChargesCoverShortfall(left: seq<Tlc>, shortfall: int, uncredited: nat)
    requires Charged(left, shortfall, uncredited).Accept?
    ensures var charged := Charged(left, shortfall, uncredited).value;
            && Total(charged, OFFERED) >= shortfall
            && (forall tlc :: tlc in charged ==> tlc in left && tlc.direction.Offered?)
            && forall bound: Bound :: Total(charged, OfferedUnder(bound)) <= Total(left, OfferedUnder(bound))
  {
    var offered := OfferedOf(left);
    var charged := Charged(left, shortfall, uncredited).value;
    OfferedOfFacts(left);
    forall bound: Bound
      ensures Total(charged, OfferedUnder(bound)) <= Total(left, OfferedUnder(bound))
    {
      OfferedUnderOf(left, bound);
      PickedWithin(offered, Chargeable(Amounts(offered), Max(shortfall, 0), shortfall + uncredited),
        OfferedUnder(bound));
    }
    if offered != [] && shortfall + uncredited > 0 && |offered| <= MAX_EXACT_CHARGE_TLCS {
      var chosen := Chargeable(Amounts(offered), Max(shortfall, 0), shortfall + uncredited);
      PickedWithin(offered, chosen, OFFERED);
      PickedAmount(offered, chosen);
      if chosen != {} {
        var i :| i in chosen;
        var s :| i in s && Accounts(Amounts(offered), s, Max(shortfall, 0), shortfall + uncredited);
        assert s <= chosen;
        SumAtWider(Amounts(offered), s, chosen);
      }
    }
  }

  // ---- Completeness

  /** One way a shortfall can have come about: a set of positive TLCs
      was paid, and uncredited ones brought in `added`. */
  ghost predicate Explains(left: seq<Tlc>, paid: set<nat>, added: nat, shortfall: int, uncredited: nat) {
    && (forall i :: i in paid ==> i < |OfferedOf(left)| && OfferedOf(left)[i].amount > 0)
    && added <= uncredited
    && shortfall == SumAt(Amounts(OfferedOf(left)), paid) - added
  }

  lemma {:induction false} SumAtMember(amounts: seq<nat>, indices: set<nat>, i: nat)
    requires i < |amounts| && i in indices
    ensures SumAt(amounts, indices) >= amounts[i]
  {
    if i < |amounts| - 1 {
      SumAtMember(amounts[..|amounts| - 1], indices, i);
    }
  }

  lemma {:induction false} SumAtNone(amounts: seq<nat>, indices: set<nat>)
    requires forall i :: i in indices ==> i >= |amounts|
    ensures SumAt(amounts, indices) == 0
  {
    if amounts != [] {
      SumAtNone(amounts[..|amounts| - 1], indices);
    }
  }

  lemma {:induction false} PickAll(tlcs: seq<Tlc>, indices: set<nat>)
    requires forall i :: 0 <= i < |tlcs| ==> i in indices
    ensures Pick(tlcs, indices) == tlcs
  {
    if tlcs != [] {
      PickAll(tlcs[..|tlcs| - 1], indices);
    }
  }

  lemma {:induction false} TotalIsWhole(left: seq<Tlc>, indices: set<nat>)
    ensures SumAt(Amounts(OfferedOf(left)), indices) <= Total(OfferedOf(left), OFFERED)
  {
    OfferedOfFacts(left);
    PickedAmount(OfferedOf(left), indices);
    PickedWithin(OfferedOf(left), indices, OFFERED);
  }

  /** Whatever set of positive TLCs was paid, with whatever received
      TLCs added, the search accepts and charges all of it. */
  lemma {:induction false} WhatWasPaidIsCharged(
    left: seq<Tlc>, paid: set<nat>, added: nat, shortfall: int, uncredited: nat)
    requires Explains(left, paid, added, shortfall, uncredited)
    ensures Charged(left, shortfall, uncredited).Accept?
    ensures exists chosen ::
              paid <= chosen && Charged(left, shortfall, uncredited).value == Pick(OfferedOf(left), chosen)
  {
    var offered := OfferedOf(left);
    var amounts := Amounts(offered);
    TotalIsWhole(left, paid);
    PickAll(offered, UpTo(|offered|));
    if paid == {} {
      SumAtNone(amounts, paid);
      PickNone(offered);
    } else {
      var i :| i in paid;
      SumAtMember(amounts, paid, i);
      assert Accounts(amounts, paid, Max(shortfall, 0), shortfall + uncredited);
      assert paid <= Chargeable(amounts, Max(shortfall, 0), shortfall + uncredited);
    }
  }

  lemma {:induction false} PickNone(tlcs: seq<Tlc>)
    ensures Pick(tlcs, {}) == []
  {
    if tlcs != [] {
      PickNone(tlcs[..|tlcs| - 1]);
    }
  }

  /** Within the exact search's reach, a refusal means exactly that the holdings fell and no outcome explains it. */
  lemma {:induction false} RefusesExactlyTheUnexplained(left: seq<Tlc>, shortfall: int, uncredited: nat)
    requires |OfferedOf(left)| <= MAX_EXACT_CHARGE_TLCS
    ensures Charged(left, shortfall, uncredited).Refuse? <==>
            shortfall > 0 && !exists paid, added :: Explains(left, paid, added, shortfall, uncredited)
  {
    var offered := OfferedOf(left);
    var amounts := Amounts(offered);
    if paid, added :| Explains(left, paid, added, shortfall, uncredited) {
      WhatWasPaidIsCharged(left, paid, added, shortfall, uncredited);
    } else if shortfall > 0 && Charged(left, shortfall, uncredited).Accept? {
      assert offered != [];
      var i :| i in Chargeable(amounts, shortfall, shortfall + uncredited);
      var s :| i in s && Accounts(amounts, s, shortfall, shortfall + uncredited);
      var positive := set j | j in s && amounts[j] > 0;
      DropZeros(amounts, s, positive);
      assert Explains(left, positive, SumAt(amounts, s) - shortfall, shortfall, uncredited);
    }
  }

  lemma {:induction false} DropZeros(amounts: seq<nat>, a: set<nat>, positive: set<nat>)
    requires forall i :: 0 <= i < |amounts| ==> (i in positive <==> i in a && amounts[i] > 0)
    ensures SumAt(amounts, a) == SumAt(amounts, positive)
  {
    if amounts != [] {
      DropZeros(amounts[..|amounts| - 1], a, positive);
    }
  }
}
