/** What one accepted commitment keeps, message by message. */
module BalanceFacts {
  import opened Sums
  import opened Payments
  import opened ChargeSearch
  import opened BalanceRule

  // ---- Charges and credits add up

  lemma {:induction false} ChargesAddUp(charged: map<Bound, nat>, tlcs: seq<Tlc>)
    requires forall tlc :: tlc in tlcs ==> tlc.direction.Offered?
    ensures Sum(WithCharges(charged, tlcs)) == Sum(charged) + Total(tlcs, OFFERED)
  {
    if tlcs != [] {
      var last := |tlcs| - 1;
      ChargesAddUp(charged, tlcs[..last]);
      var before := WithCharges(charged, tlcs[..last]);
      Update(before, tlcs[last].bound, Get(before, tlcs[last].bound) + tlcs[last].amount);
      assert tlcs == tlcs[..last] + [tlcs[last]];
      TotalSnoc(tlcs[..last], tlcs[last], OFFERED);
    }
  }

  lemma {:induction false} ChargesUnder(charged: map<Bound, nat>, tlcs: seq<Tlc>, bound: Bound)
    requires forall tlc :: tlc in tlcs ==> tlc.direction.Offered?
    ensures Get(WithCharges(charged, tlcs), bound) == Get(charged, bound) + Total(tlcs, OfferedUnder(bound))
  {
    if tlcs != [] {
      var last := |tlcs| - 1;
      ChargesUnder(charged, tlcs[..last], bound);
      assert tlcs == tlcs[..last] + [tlcs[last]];
      TotalSnoc(tlcs[..last], tlcs[last], OfferedUnder(bound));
    }
  }

  lemma {:induction false} CreditsAddUp(left: seq<Tlc>, context: Context, credited: map<Bound, nat>)
    ensures Sum(Accrue(left, context, credited).credited) == Sum(credited) + Accrue(left, context, credited).credit
  {
    if left != [] {
      var last := |left| - 1;
      CreditsAddUp(left[..last], context, credited);
      var before := Accrue(left[..last], context, credited);
      var after := Accrue(left, context, credited);
      assert after == AccrueOne(left[last], context, before);
      if after.credit != before.credit {
        Update(before.credited, left[last].bound, Get(before.credited, left[last].bound)
          + (after.credit - before.credit));
      } else {
        assert after.credited == before.credited;
      }
    }
  }

  /** A message moves holdings and charges together: neither falls
      unless the other takes it, and every credit is paid in. */
  lemma {:induction false} HoldingsAreKept(view: View, views: Views, next: Stated, context: Context)
    requires Judge(view, views, next, context).Accept?
    ensures var before := views.Of(view);
            var after := Judge(view, views, next, context).value;
            Holdings(after.exposure, after.tlcs) + Sum(after.charged) - Sum(after.credited)
            >= Holdings(before.exposure, before.tlcs) + Sum(before.charged) - Sum(before.credited)
  {
    var before := views.Of(view);
    var left := Difference(before.tlcs, multiset(next.tlcs));
    ChargesCoverShortfall(left, Shortfall(before, next, context), Departed(before, next, context).uncredited);
    ChargesAddUp(before.charged, ChargedNow(before, next, context).value);
    CreditsAddUp(left, context, before.credited);
  }

  // ---- Draws

  lemma {:induction false} ShownNot(tlcs: seq<Tlc>, bound: Bound)
    requires forall tlc :: tlc in tlcs ==> !(tlc.direction.Offered? && tlc.bound == bound)
    ensures Total(tlcs, OfferedUnder(bound)) == 0
  {
    if tlcs != [] {
      ShownNot(tlcs[1..], bound);
    }
  }

  /** A channel whose draw grows under a hash stays within that hash's
      open intent, every listed channel counted at its worst. */
  lemma {:induction false} DrawsAreCovered(view: View, views: Views, next: Stated, context: Context, bound: Bound)
    requires Judge(view, views, next, context).Accept?
    ensures var after := Judge(view, views, next, context).value;
            Drawn(after, bound) > ChannelDraw(views, bound) ==>
              && bound in context.intents
              && context.intents[bound].open
              && Drawn(after, bound) + Sum(OtherDraws(context, bound)) <= context.intents[bound].maximum
              && exists tlc :: tlc in next.tlcs && tlc.bound == bound
  {
    var before := views.Of(view);
    var after := Judge(view, views, next, context).value;
    var left := Difference(before.tlcs, multiset(next.tlcs));
    ChargesCoverShortfall(left, Shortfall(before, next, context), Departed(before, next, context).uncredited);
    ChargesUnder(before.charged, ChargedNow(before, next, context).value, bound);
    if forall tlc :: tlc in next.tlcs ==> !(tlc.direction.Offered? && tlc.bound == bound) {
      ShownNot(next.tlcs, bound);
      DifferenceWithin(before.tlcs, multiset(next.tlcs), OfferedUnder(bound));
    } else {
      var tlc :| tlc in next.tlcs && tlc.direction.Offered? && tlc.bound == bound;
      assert !AnyOverdraws(view, views, after, context);
      assert !Overdraws(view, views, after, context, tlc.bound);
    }
  }

  // ---- Credits

  /** The released invoice a context holds under a hash, if any. */
  ghost predicate Owes(context: Context, bound: Bound) {
    bound in context.invoices && context.invoices[bound].released
  }

  ghost function HeldOf(context: Context, bound: Bound): Tlc -> bool
    requires bound in context.invoices
  {
    HeldUnder(bound, context.invoices[bound].hash)
  }

  /** Departed TLCs of a released invoice are credited in full, or
      until the invoice is surely paid, and never past that. */
  lemma {:induction false} CreditsCover(left: seq<Tlc>, context: Context, credited: map<Bound, nat>, bound: Bound)
    ensures var after := Accrue(left, context, credited).credited;
            && Get(after, bound) >= Get(credited, bound)
            && (!Owes(context, bound) ==> Get(after, bound) == Get(credited, bound))
            && (Owes(context, bound) ==>
                && (Get(after, bound) == Get(credited, bound) + Total(left, HeldOf(context, bound))
                    || CreditedAcross(after, context, bound) >= context.invoices[bound].amount)
                && (Get(after, bound) == Get(credited, bound)
                    || CreditedAcross(after, context, bound) <= context.invoices[bound].amount))
            && (Get(after, bound) > Get(credited, bound) ==>
                  exists tlc :: tlc in left && tlc.bound == bound && IsReleasedHeld(context, tlc))
  {
    if left != [] {
      var last := |left| - 1;
      var tlc := left[last];
      CreditsCover(left[..last], context, credited, bound);
      assert left == left[..last] + [tlc];
      if Owes(context, bound) {
        TotalSnoc(left[..last], tlc, HeldOf(context, bound));
      }
      var before := Accrue(left[..last], context, credited);
      var after := Accrue(left, context, credited);
      assert after == AccrueOne(tlc, context, before);
    }
  }

  /** An accepted message credits only what it must, and what it no
      longer shows of a released invoice it has credited. */
  lemma {:induction false} ReleasedStaysCovered(view: View, views: Views, next: Stated, context: Context, bound: Bound)
    requires Judge(view, views, next, context).Accept?
    requires Owes(context, bound)
    ensures var before := views.Of(view);
            var after := Judge(view, views, next, context).value;
            Get(after.credited, bound) + Total(after.tlcs, HeldOf(context, bound))
              >= Get(before.credited, bound) + Total(before.tlcs, HeldOf(context, bound))
            || CreditedAcross(after.credited, context, bound) >= context.invoices[bound].amount
  {
    var before := views.Of(view);
    var left := Difference(before.tlcs, multiset(next.tlcs));
    CreditsCover(left, context, before.credited, bound);
    ShownOrLeft(before.tlcs, next.tlcs, HeldOf(context, bound));
  }

  // ---- Mixes

  /** A message that credits an invoice raises the view's holdings by
      the credit and charges nothing, where nothing is mixed. */
  lemma {:induction false} CreditRaisesHoldings(view: View, views: Views, next: Stated, context: Context)
    requires Judge(view, views, next, context).Accept?
    requires !Mixes(context, views.Of(view).tlcs)
    requires Departed(views.Of(view), next, context).credit > 0
    ensures var before := views.Of(view);
            var after := Judge(view, views, next, context).value;
            && Holdings(after.exposure, after.tlcs)
               >= Holdings(before.exposure, before.tlcs) + Departed(before, next, context).credit
            && after.charged == before.charged
  {
    var before := views.Of(view);
    var left := Difference(before.tlcs, multiset(next.tlcs));
    CreditNeedsReleased(left, context, before.credited);
    var held :| held in left && IsReleasedHeld(context, held);
    DifferenceListed(before.tlcs, multiset(next.tlcs), held);
    OfferedOfFacts(left);
    forall tlc | tlc in left
      ensures tlc.direction.Received?
    {
      DifferenceListed(before.tlcs, multiset(next.tlcs), tlc);
    }
    NoneOffered(left);
  }

  lemma {:induction false} NoneOffered(tlcs: seq<Tlc>)
    requires forall tlc :: tlc in tlcs ==> tlc.direction.Received?
    ensures OfferedOf(tlcs) == []
  {
    if tlcs != [] {
      NoneOffered(tlcs[1..]);
    }
  }

  lemma {:induction false} CreditNeedsReleased(left: seq<Tlc>, context: Context, credited: map<Bound, nat>)
    requires Accrue(left, context, credited).credit > 0
    ensures exists tlc :: tlc in left && IsReleasedHeld(context, tlc)
  {
    var last := |left| - 1;
    if Accrue(left[..last], context, credited).credit > 0 {
      CreditNeedsReleased(left[..last], context, credited);
      var tlc :| tlc in left[..last] && IsReleasedHeld(context, tlc);
      assert tlc in left;
    } else {
      assert IsReleasedHeld(context, left[last]);
    }
  }
}
