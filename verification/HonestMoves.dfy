/** Moves an honest peer makes, and that each is signed: a payment
    offered, come back or paid, and one received, held or settled. */
module HonestMoves {
  import opened Outcomes
  import opened Sums
  import opened Payments
  import opened ChargeSearch
  import opened BalanceRule
  import opened BalanceFacts
  import opened RuleAnswers

  lemma {:induction false} NothingLeft(before: seq<Tlc>, next: seq<Tlc>)
    requires multiset(before) <= multiset(next)
    ensures Difference(before, multiset(next)) == []
  {
    DifferenceIsMultisetDifference(before, multiset(next));
    assert multiset(Difference(before, multiset(next))) == multiset{};
    assert |multiset(Difference(before, multiset(next)))| == 0;
  }

  lemma {:induction false} OneLeft(before: seq<Tlc>, next: seq<Tlc>, tlc: Tlc)
    requires multiset(before) == multiset(next) + multiset{tlc}
    ensures Difference(before, multiset(next)) == [tlc]
  {
    DifferenceIsMultisetDifference(before, multiset(next));
    var left := Difference(before, multiset(next));
    assert multiset(left) == multiset{tlc};
    assert |left| == |multiset(left)| == 1;
    assert left[0] in multiset(left);
  }

  lemma {:induction false} TotalOfOne(tlc: Tlc, select: Tlc -> bool)
    ensures Total([tlc], select) == if select(tlc) then tlc.amount else 0
  {
    assert [tlc][1..] == [];
  }

  /** A total with one TLC more. */
  lemma {:induction false} OneMore(less: seq<Tlc>, more: seq<Tlc>, tlc: Tlc, select: Tlc -> bool)
    requires multiset(more) == multiset(less) + multiset{tlc}
    ensures Total(more, select) == Total(less, select) + if select(tlc) then tlc.amount else 0
  {
    TotalOfMultiset(more, less + [tlc], select);
    TotalSnoc(less, tlc, select);
  }

  lemma {:induction false} NoCredits(context: Context, credited: map<Bound, nat>)
    ensures Sum<nat>(CreditsOf([], context, credited)) == 0
  {
    var credits := CreditsOf([], context, credited);
    var none: map<Bound, nat> := map[];
    OverKeys<nat>(none, context.invoices.Keys);
    assert Over<nat>(none, context.invoices.Keys) == credits;
    assert Sum<nat>(none) == 0;
  }

  /** Neither view shows a received TLC of a released invoice, nor would the next. */
  ghost predicate NoneReleased(views: Views, next: seq<Tlc>, context: Context) {
    forall tlc :: tlc in next || tlc in views.remote.tlcs || tlc in views.local.tlcs ==> !PaysReleased(context, tlc)
  }

  lemma {:induction false} NothingMixed(view: View, views: Views, next: seq<Tlc>, context: Context)
    requires NoneReleased(views, next, context)
    ensures MixesNoMore(view, views, next, context) && LocksAlike(views.Of(view).tlcs, next, context)
  {
    hide PaysReleased, IsNew;
  }

  /** Where nothing left and nothing fell, the commitment is accepted on
      what it shows alone, and charges and credits nothing. */
  lemma {:induction false} NothingFell(view: View, views: Views, next: Stated, context: Context)
    requires multiset(views.Of(view).tlcs) <= multiset(next.tlcs)
    requires next.exposure + Total(next.tlcs, IS_OFFERED)
             == views.Of(view).exposure + Total(views.Of(view).tlcs, IS_OFFERED)
    ensures var before := views.Of(view);
            && LeftOf(before, next) == [] && Fall(before, next, context) == 0 && Unasked(before, next, context) == 0
            && Explained([], 0, 0) && Charges([], 0, 0) == []
    ensures Judge(view, views, next, context).Accept? ==>
              Judge(view, views, next, context).value
              == Snapshot(next.exposure, next.tlcs, views.Of(view).charged, views.Of(view).credited)
  {
    var before := views.Of(view);
    NothingLeft(before.tlcs, next.tlcs);
    NoCredits(context, before.credited);
    FallIs(before, next, context);
    assert Total([], MayHavePaid(context)) == 0;
    if Judge(view, views, next, context).Accept? {
      ChargesAre([], 0, 0);
      assert Accrue([], context, before.credited).credited == before.credited;
      assert WithCharges(before.charged, []) == before.charged;
      hide Difference, AnyOverdraws, BringsMix, AddsOtherAlgorithm, OffersTwins, Charged, Total, CreditsOf;
    }
  }

  /** What is still offered under a hash the commitment does not touch takes no more than it did. */
  lemma {:induction false} StillAfforded(view: View, views: Views, context: Context, bound: Bound, takes: nat)
    requires takes <= Takes(views.Of(view), bound)
    ensures Affords(views, context, bound, takes)
  {
  }

  // ---- Payments out

  /** The commitment shows one TLC more, and the rest as it was. */
  predicate Adds(before: Snapshot, next: Stated, tlc: Tlc) {
    multiset(next.tlcs) == multiset(before.tlcs) + multiset{tlc}
  }

  predicate Drops(before: Snapshot, next: Stated, tlc: Tlc) {
    multiset(before.tlcs) == multiset(next.tlcs) + multiset{tlc}
  }

  /** The TLC is one the user approved, and the budget covers it beside all
      that is drawn on it, each other channel at its worse view. */
  ghost predicate Covered(before: Snapshot, context: Context, tlc: Tlc) {
    && tlc.direction == Offered && tlc.bound in context.intents
    && var intent := context.intents[tlc.bound];
       && intent.open && Fits(tlc, intent.hash)
       && Takes(before, tlc.bound) + tlc.amount + Sum<nat>(TakenElsewhere(context, tlc.bound)) <= intent.maximum
  }

  /** A payment offered within its open intent is accepted, and its
      view's snapshot gains the TLC and loses its amount. */
  lemma {:induction false} OfferIsSigned(view: View, views: Views, next: Stated, context: Context, tlc: Tlc)
    requires Adds(views.Of(view), next, tlc) && next.exposure + tlc.amount == views.Of(view).exposure
    requires Covered(views.Of(view), context, tlc) && OffersOwn(views.Of(view).tlcs, context)
    requires NoneReleased(views, next.tlcs, context)
    ensures Judge(view, views, next, context)
            == Accept(Snapshot(next.exposure, next.tlcs, views.Of(view).charged, views.Of(view).credited))
  {
    var before := views.Of(view);
    OneMore(before.tlcs, next.tlcs, tlc, IS_OFFERED);
    NothingFell(view, views, next, context);
    NothingMixed(view, views, next.tlcs, context);
    assert forall other :: other in next.tlcs ==> other in before.tlcs || other == tlc by {
      assert forall other :: other in next.tlcs ==> other in multiset(next.tlcs);
    }
    forall other | other in next.tlcs && other.direction == Offered
      ensures Affords(views, context, other.bound, TakesNow(before, next, context, other.bound))
    {
      OneMore(before.tlcs, next.tlcs, tlc, OffersUnder(other.bound));
      assert Total([], OffersUnder(other.bound)) == 0;
      if other.bound != tlc.bound {
        StillAfforded(view, views, context, other.bound, TakesNow(before, next, context, other.bound));
      }
    }
    hide Takes, TakenElsewhere, Affords, Fall, Unasked, MixesNoMore, LocksAlike, LeftOf, TakesNow, Explained, Charges,
      Judge,
         NoneReleased, Fits;
    AcceptedExactly(view, views, next, context);
  }

  // ---- A TLC that leaves

  /** Dropping a TLC adds none, so it mixes and locks nothing new. */
  lemma {:induction false} DroppingMixesNothing(view: View, views: Views, next: Stated, context: Context, tlc: Tlc)
    requires Drops(views.Of(view), next, tlc)
    ensures MixesNoMore(view, views, next.tlcs, context) && LocksAlike(views.Of(view).tlcs, next.tlcs, context)
    ensures OffersOwn(views.Of(view).tlcs, context) ==> OffersOwn(next.tlcs, context)
  {
    var before := views.Of(view).tlcs;
    assert forall other :: multiset(next.tlcs)[other] <= multiset(before)[other];
    assert forall other :: other in next.tlcs ==> other in before by {
      assert forall other :: other in next.tlcs ==> other in multiset(next.tlcs);
      assert forall other :: other in multiset(before) ==> other in before;
    }
    hide PaysReleased, Fits;
  }

  /** What a commitment that drops one TLC takes under any hash, when it charges that TLC or nothing. */
  lemma {:induction false} DroppedIsAfforded(
    view: View, views: Views, next: Stated, context: Context, tlc: Tlc, charges: seq<Tlc>)
    requires Drops(views.Of(view), next, tlc) && Unasked(views.Of(view), next, context) >= 0
    requires Charges([tlc], Fall(views.Of(view), next, context), Unasked(views.Of(view), next, context)) == charges
    requires charges == [] || charges == [tlc]
    ensures forall bound: Bound :: Affords(views, context, bound, TakesNow(views.Of(view), next, context, bound))
  {
    var before := views.Of(view);
    OneLeft(before.tlcs, next.tlcs, tlc);
    forall bound: Bound
      ensures Affords(views, context, bound, TakesNow(before, next, context, bound))
    {
      OneMore(next.tlcs, before.tlcs, tlc, OffersUnder(bound));
      TotalOfOne(tlc, OffersUnder(bound));
      assert Total([], OffersUnder(bound)) == 0;
      StillAfforded(view, views, context, bound, TakesNow(before, next, context, bound));
    }
  }

  lemma {:induction false} OneOffered(tlc: Tlc)
    ensures OfferedOf([tlc]) == if tlc.direction == Offered then [tlc] else []
  {
    assert [tlc][1..] == [];
    assert OfferedOf([]) == [];
  }

  lemma {:induction false} OneCredit(tlc: Tlc, context: Context, credited: map<Bound, nat>)
    ensures Sum<nat>(CreditsOf([tlc], context, credited)) == CreditTo([tlc], context, credited, tlc.bound)
    ensures !PaysReleased(context, tlc) ==> CreditTo([tlc], context, credited, tlc.bound) == 0
  {
    CreditTotal([tlc], context, credited);
    var a := Accrue([tlc], context, credited);
    assert [tlc][..0] == [];
    assert Accrue([], context, credited) == Accrual(credited, 0, 0);
    assert a == AccrueOne(tlc, context, Accrual(credited, 0, 0));
    AccrualIs([tlc], context, credited, tlc.bound);
    TotalOfOne(tlc, ReleasedUnder(context, tlc.bound));
    hide CreditedAcross, CreditsOf, Accrue;
  }

  /** Where one TLC leaves, what falls and what may have been added unasked. */
  lemma {:induction false} FallOfOne(view: View, views: Views, next: Stated, context: Context, tlc: Tlc)
    requires Drops(views.Of(view), next, tlc)
    ensures var before := views.Of(view);
            var credit := CreditTo([tlc], context, before.credited, tlc.bound);
            && LeftOf(before, next) == [tlc]
            && Fall(before, next, context)
               == before.exposure - next.exposure + credit + (if tlc.direction == Offered then tlc.amount else 0)
            && Unasked(before, next, context) == Total([tlc], MayHavePaid(context)) - credit
            && Unasked(before, next, context) >= 0
  {
    var before := views.Of(view);
    OneLeft(before.tlcs, next.tlcs, tlc);
    OneMore(next.tlcs, before.tlcs, tlc, IS_OFFERED);
    OneCredit(tlc, context, before.credited);
    FallIs(before, next, context);
    hide CreditTo, CreditsOf, Accrue, Total, Difference;
  }

  lemma {:induction false} ChargesOfOne(tlc: Tlc, fall: int, unasked: nat)
    ensures tlc.direction == Received ==>
            (Explained([tlc], fall, unasked) <==> fall <= 0) && Charges([tlc], fall, unasked) == []
    ensures fall <= 0 && fall + unasked <= 0 ==> Explained([tlc], fall, unasked) && Charges([tlc], fall, unasked) == []
    ensures tlc.direction == Offered && tlc.amount > 0 && fall == tlc.amount ==>
              Explained([tlc], fall, unasked) && Charges([tlc], fall, unasked) == [tlc]
  {
    OneOffered(tlc);
    if tlc.direction == Received {
      ReceivedExplainsNothing(tlc, fall, unasked);
    } else if tlc.amount > 0 && fall == tlc.amount {
      WholeIsExplained(tlc, unasked);
    }
  }

  lemma {:induction false} ReceivedExplainsNothing(tlc: Tlc, fall: int, unasked: nat)
    requires tlc.direction == Received
    ensures Explained([tlc], fall, unasked) <==> fall <= 0
    ensures Charges([tlc], fall, unasked) == []
  {
    OneOffered(tlc);
    PickNone([]);
    forall paid, added | Explains([tlc], paid, added, fall, unasked)
      ensures fall <= 0
    {
      assert Amounts(OfferedOf([tlc])) == [];
    }
  }

  lemma {:induction false} WholeIsExplained(tlc: Tlc, unasked: nat)
    requires tlc.direction == Offered && tlc.amount > 0
    ensures Explained([tlc], tlc.amount, unasked) && Charges([tlc], tlc.amount, unasked) == [tlc]
  {
    OneOffered(tlc);
    var amounts := Amounts(OfferedOf([tlc]));
    assert amounts == [tlc.amount] && amounts[..0] == [];
    assert SumAt([], {0}) == 0;
    assert SumAt(amounts, {0}) == tlc.amount;
    assert Explains([tlc], {0}, 0, tlc.amount, unasked);
    assert Accounts(amounts, {0}, tlc.amount, tlc.amount + unasked);
    assert IsNamed(amounts, 0, tlc.amount, tlc.amount + unasked) by {
      assert 0 in {0};
    }
    var highest := tlc.amount + unasked;
    var named := set i | 0 <= i < |OfferedOf([tlc])| && IsNamed(amounts, i, tlc.amount, highest);
    assert named == {0};
    assert [tlc][..0] == [] && Pick([], {0}) == [];
    assert Pick([tlc], {0}) == [tlc];
  }

  /** With nothing in the way but what it falls by, dropping one TLC is accepted exactly when that is explained. */
  lemma {:induction false} DropIsSignedExactly(
    view: View, views: Views, next: Stated, context: Context, tlc: Tlc, fall: int, unasked: nat)
    requires Drops(views.Of(view), next, tlc) && OffersOwn(views.Of(view).tlcs, context)
    requires fall == Fall(views.Of(view), next, context) && unasked == Unasked(views.Of(view), next, context)
    requires Charges([tlc], fall, unasked) == [] || Charges([tlc], fall, unasked) == [tlc]
    ensures Judge(view, views, next, context).Accept? <==> Explained([tlc], fall, unasked)
  {
    FallOfOne(view, views, next, context, tlc);
    DroppingMixesNothing(view, views, next, context, tlc);
    DroppedIsAfforded(view, views, next, context, tlc, Charges([tlc], fall, unasked));
    hide Fall, Unasked, Explained, Charges, Affords, TakesNow, MixesNoMore, LocksAlike, OffersOwn, Judge, LeftOf, Drops;
    AcceptedExactly(view, views, next, context);
  }

  /** What an accepted commitment that drops one TLC charges and credits. */
  lemma {:induction false} DropLeaves(view: View, views: Views, next: Stated, context: Context, tlc: Tlc, bound: Bound)
    requires Drops(views.Of(view), next, tlc) && Judge(view, views, next, context).Accept?
    ensures var before, after := views.Of(view), Judge(view, views, next, context).value;
            && Unasked(before, next, context) >= 0
            && var charges := Charges([tlc], Fall(before, next, context), Unasked(before, next, context));
               && Get(after.charged, bound) == Get(before.charged, bound) + Total(charges, OffersUnder(bound))
               && Get(after.credited, bound)
                  == Get(before.credited, bound) + CreditTo([tlc], context, before.credited, bound)
               && after.exposure == next.exposure && after.tlcs == next.tlcs
  {
    OneLeft(views.Of(view).tlcs, next.tlcs, tlc);
    AcceptedSnapshot(view, views, next, context);
    hide Charges, Fall, Unasked, Judge, CreditTo, Total;
  }

  // ---- The moves

  /** A payment that comes back with its amount is accepted, and charges nothing. */
  lemma {:induction false} OfferComesBack(
    view: View, views: Views, next: Stated, context: Context, tlc: Tlc, bound: Bound)
    requires Drops(views.Of(view), next, tlc) && tlc.direction == Offered && OffersOwn(views.Of(view).tlcs, context)
    requires next.exposure == views.Of(view).exposure + tlc.amount
    ensures Judge(view, views, next, context).Accept?
    ensures Get(Judge(view, views, next, context).value.charged, bound) == Get(views.Of(view).charged, bound)
  {
    var before := views.Of(view);
    FallOfOne(view, views, next, context, tlc);
    OneCredit(tlc, context, before.credited);
    TotalOfOne(tlc, MayHavePaid(context));
    ChargesOfOne(tlc, 0, 0);
    DropIsSignedExactly(view, views, next, context, tlc, 0, 0);
    DropLeaves(view, views, next, context, tlc, bound);
    assert Total([], OffersUnder(bound)) == 0;
  }

  /** A payment that leaves with its amount is accepted and charged, to its own hash alone. */
  lemma {:induction false} OfferIsPaid(view: View, views: Views, next: Stated, context: Context, tlc: Tlc, bound: Bound)
    requires Drops(views.Of(view), next, tlc) && tlc.direction == Offered && OffersOwn(views.Of(view).tlcs, context)
    requires next.exposure == views.Of(view).exposure && tlc.amount > 0
    ensures Judge(view, views, next, context).Accept?
    ensures Get(Judge(view, views, next, context).value.charged, bound)
            == Get(views.Of(view).charged, bound) + if bound == tlc.bound then tlc.amount else 0
  {
    var before := views.Of(view);
    FallOfOne(view, views, next, context, tlc);
    OneCredit(tlc, context, before.credited);
    TotalOfOne(tlc, MayHavePaid(context));
    ChargesOfOne(tlc, tlc.amount, 0);
    DropIsSignedExactly(view, views, next, context, tlc, tlc.amount, 0);
    DropLeaves(view, views, next, context, tlc, bound);
    TotalOfOne(tlc, OffersUnder(bound));
  }

  /** A held TLC of a released invoice that leaves: accepted exactly when the
      exposure rises by what the invoice is still owed of it, and credited that. */
  lemma {:induction false} HeldIsPaid(view: View, views: Views, next: Stated, context: Context, tlc: Tlc, owed: nat)
    requires Drops(views.Of(view), next, tlc) && PaysReleased(context, tlc) && OffersOwn(views.Of(view).tlcs, context)
    requires owed == CreditTo([tlc], context, views.Of(view).credited, tlc.bound)
    ensures Judge(view, views, next, context).Accept? <==> next.exposure >= views.Of(view).exposure + owed
    ensures Judge(view, views, next, context).Accept? ==>
              Get(Judge(view, views, next, context).value.credited, tlc.bound)
                == Get(views.Of(view).credited, tlc.bound) + owed
  {
    var before := views.Of(view);
    FallOfOne(view, views, next, context, tlc);
    var fall, unasked := Fall(before, next, context), Unasked(before, next, context);
    ChargesOfOne(tlc, fall, unasked);
    DropIsSignedExactly(view, views, next, context, tlc, fall, unasked);
    hide Judge, CreditTo, Explained, Charges, OffersOwn, Total;
    if Judge(view, views, next, context).Accept? {
      DropLeaves(view, views, next, context, tlc, tlc.bound);
    }
  }

  /** A held TLC of no released invoice may leave at no loss, and credits nothing. */
  lemma {:induction false} HeldLeaves(view: View, views: Views, next: Stated, context: Context, tlc: Tlc)
    requires Drops(views.Of(view), next, tlc) && tlc.direction == Received && !PaysReleased(context, tlc)
    requires OffersOwn(views.Of(view).tlcs, context)
    ensures Judge(view, views, next, context).Accept? <==> next.exposure >= views.Of(view).exposure
  {
    var before := views.Of(view);
    FallOfOne(view, views, next, context, tlc);
    OneCredit(tlc, context, before.credited);
    var fall, unasked := Fall(before, next, context), Unasked(before, next, context);
    ChargesOfOne(tlc, fall, unasked);
    DropIsSignedExactly(view, views, next, context, tlc, fall, unasked);
  }

  /** A held TLC is added at no loss exactly when it mixes nothing and opens with its invoice's preimage. */
  lemma {:induction false} HeldIsAdded(view: View, views: Views, next: Stated, context: Context, tlc: Tlc)
    requires Adds(views.Of(view), next, tlc) && tlc.direction == Received && OffersOwn(views.Of(view).tlcs, context)
    requires next.exposure == views.Of(view).exposure
    ensures Judge(view, views, next, context).Accept?
            <==> MixesNoMore(view, views, next.tlcs, context) && LocksAlike(views.Of(view).tlcs, next.tlcs, context)
    ensures Judge(view, views, next, context).Accept? ==>
              Judge(view, views, next, context).value
              == Snapshot(next.exposure, next.tlcs, views.Of(view).charged, views.Of(view).credited)
  {
    var before := views.Of(view);
    OneMore(before.tlcs, next.tlcs, tlc, IS_OFFERED);
    NothingFell(view, views, next, context);
    assert forall other :: other in next.tlcs ==> other in before.tlcs || other == tlc by {
      assert forall other :: other in next.tlcs ==> other in multiset(next.tlcs);
    }
    forall other | other in next.tlcs && other.direction == Offered
      ensures Affords(views, context, other.bound, TakesNow(before, next, context, other.bound))
    {
      OneMore(before.tlcs, next.tlcs, tlc, OffersUnder(other.bound));
      assert Total([], OffersUnder(other.bound)) == 0;
      StillAfforded(view, views, context, other.bound, TakesNow(before, next, context, other.bound));
    }
    hide Takes, TakenElsewhere, Affords, Fall, Unasked, MixesNoMore, LocksAlike, LeftOf, TakesNow, Explained, Charges,
      Judge, Fits;
    AcceptedExactly(view, views, next, context);
  }
}
