/** What the balance rule answers, both ways: which commitments are accepted,
    in amounts, hashes and totals, and the snapshot each leaves. */
module RuleAnswers {
  import opened Outcomes
  import opened Sums
  import opened Payments
  import opened ChargeSearch
  import opened BalanceRule
  import opened BalanceFacts

  // ---- Whose a TLC is

  /** A TLC that binds a whole hash is of that payment alone; one that
      binds none is of whichever holds its bound bytes. */
  predicate Fits(tlc: Tlc, hash: PaymentHash) {
    match tlc.full
    case None => true
    case Some(whole) => whole == hash
  }

  /** A received TLC that pays an invoice of the device's. */
  predicate PaysInvoice(context: Context, tlc: Tlc) {
    tlc.direction == Received && tlc.bound in context.invoices && Fits(tlc, context.invoices[tlc.bound].hash)
  }

  predicate PaysReleased(context: Context, tlc: Tlc) {
    PaysInvoice(context, tlc) && context.invoices[tlc.bound].released
  }

  function ReleasedUnder(context: Context, bound: Bound): Tlc -> bool {
    (tlc: Tlc) => tlc.bound == bound && PaysReleased(context, tlc)
  }

  /** Received TLCs that may have raised the device's balance as they left: all but those of an invoice not released. */
  function MayHavePaid(context: Context): Tlc -> bool {
    (tlc: Tlc) => tlc.direction == Received && (PaysInvoice(context, tlc) ==> context.invoices[tlc.bound].released)
  }

  // ---- What left is credited

  /** What the other channels are sure to have been credited to an invoice, each at its less credited view. */
  ghost function SureElsewhere(context: Context, bound: Bound): map<nat, int> {
    map other | other in context.others ::
      var remote, local := Get(context.others[other].remote.credited, bound), Get(context.others[other].local.credited,
        bound);
      if remote < local then remote else local
  }

  /** What an invoice is credited: what left of it, up to what it is still owed. */
  ghost function CreditTo(left: seq<Tlc>, context: Context, credited: map<Bound, nat>, bound: Bound): nat {
    if bound !in context.invoices || !context.invoices[bound].released then 0 else
      var owed := context.invoices[bound].amount - Get(credited, bound) - Sum(SureElsewhere(context, bound));
      var gone := Total(left, ReleasedUnder(context, bound));
      if owed <= 0 then 0 else if gone < owed then gone else owed
  }

  ghost function CreditsOf(left: seq<Tlc>, context: Context, credited: map<Bound, nat>): map<Bound, int> {
    map bound | bound in context.invoices :: CreditTo(left, context, credited, bound)
  }

  lemma {:induction false} SureIs(context: Context, bound: Bound)
    ensures SureElsewhere(context, bound) == SureCredits(context, bound)
  {
  }

  lemma {:induction false} CreditSteps(
    left: seq<Tlc>, context: Context, credited: map<Bound, nat>, tlc: Tlc, bound: Bound)
    ensures Total(left + [tlc], ReleasedUnder(context, bound))
            == Total(left, ReleasedUnder(context, bound))
               + if tlc.bound == bound && PaysReleased(context, tlc) then tlc.amount else 0
  {
    TotalSnoc(left, tlc, ReleasedUnder(context, bound));
  }

  /** The credits taken one by one are the credits of the whole. */
  lemma {:induction false} AccrualIs(left: seq<Tlc>, context: Context, credited: map<Bound, nat>, bound: Bound)
    ensures Get(Accrue(left, context, credited).credited, bound)
            == Get(credited, bound) + CreditTo(left, context, credited, bound)
  {
    SureIs(context, bound);
    if left != [] {
      var before, tlc := left[..|left| - 1], left[|left| - 1];
      assert left == before + [tlc];
      AccrualIs(before, context, credited, bound);
      CreditSteps(before, context, credited, tlc, bound);
      hide Accrue, SureElsewhere, SureCredits, Total;
      AccruesOne(tlc, context, Accrue(before, context, credited), bound);
      assert Accrue(left, context, credited) == AccrueOne(tlc, context, Accrue(before, context, credited)) by {
        AccrueUnfolds(before, tlc, context, credited);
      }
    }
  }

  lemma {:induction false} AccrueUnfolds(before: seq<Tlc>, tlc: Tlc, context: Context, credited: map<Bound, nat>)
    ensures Accrue(before + [tlc], context, credited) == AccrueOne(tlc, context, Accrue(before, context, credited))
  {
    assert (before + [tlc])[..|before|] == before;
  }

  lemma {:induction false} AccruesOne(tlc: Tlc, context: Context, a: Accrual, bound: Bound)
    ensures var sure := Get(a.credited, bound) + Sum(SureElsewhere(context, bound));
            var owed := if bound in context.invoices then context.invoices[bound].amount - sure else 0;
            Get(AccrueOne(tlc, context, a).credited, bound)
            == Get(a.credited, bound)
               + if tlc.bound != bound || !PaysReleased(context, tlc) || owed <= 0 then 0
                 else if tlc.amount < owed then tlc.amount else owed
  {
    SureIs(context, tlc.bound);
    hide SureElsewhere, SureCredits;
  }

  lemma {:induction false} CreditTotal(left: seq<Tlc>, context: Context, credited: map<Bound, nat>)
    ensures Accrue(left, context, credited).credit == Sum<nat>(CreditsOf(left, context, credited))
  {
    CreditsAddUp(left, context, credited);
    var after, credits := Accrue(left, context, credited).credited, CreditsOf(left, context, credited);
    var keys := credited.Keys + context.invoices.Keys + after.Keys;
    forall bound: Bound {
      AccrualIs(left, context, credited, bound);
    }
    hide Accrue, CreditTo;
    var asNats: map<Bound, nat> := map bound | bound in context.invoices :: CreditTo(left, context, credited, bound);
    assert asNats == credits;
    OverKeys<nat>(credited, keys);
    OverKeys<nat>(after, keys);
    OverKeys<nat>(asNats, keys);
    assert forall bound: Bound :: bound !in context.invoices ==> CreditTo(left, context, credited, bound) == 0 by {
      NothingToNone(left, context, credited);
    }
    Plus<nat>(Over<nat>(credited, keys), Over<nat>(asNats, keys), Over<nat>(after, keys));
  }

  lemma {:induction false} NothingToNone(left: seq<Tlc>, context: Context, credited: map<Bound, nat>)
    ensures forall bound: Bound :: bound !in context.invoices ==> CreditTo(left, context, credited, bound) == 0
  {
  }

  lemma {:induction false} UnaskedIs(left: seq<Tlc>, context: Context, credited: map<Bound, nat>)
    ensures var a := Accrue(left, context, credited);
            a.uncredited + a.credit == Total(left, MayHavePaid(context))
  {
    if left != [] {
      var before, tlc := left[..|left| - 1], left[|left| - 1];
      assert left == before + [tlc];
      UnaskedIs(before, context, credited);
      AccrueUnfolds(before, tlc, context, credited);
      TotalSnoc(before, tlc, MayHavePaid(context));
      hide Accrue, CreditedAcross;
    }
  }

  // ---- What a commitment takes from its view

  const IS_OFFERED: Tlc -> bool := (tlc: Tlc) => tlc.direction == Offered

  function OffersUnder(bound: Bound): Tlc -> bool {
    (tlc: Tlc) => tlc.direction == Offered && tlc.bound == bound
  }

  function LeftOf(before: Snapshot, next: Stated): seq<Tlc> {
    Difference(before.tlcs, multiset(next.tlcs))
  }

  /** The credit a commitment owes its view. */
  ghost function CreditIn(before: Snapshot, next: Stated, context: Context): int {
    Sum<nat>(CreditsOf(LeftOf(before, next), context, before.credited))
  }

  /** How far the exposure and the offered TLCs together fall short of what they were and the credit. */
  ghost function Fall(before: Snapshot, next: Stated, context: Context): int {
    before.exposure + Total(before.tlcs, IS_OFFERED) + CreditIn(before, next, context)
    - next.exposure - Total(next.tlcs, IS_OFFERED)
  }

  /** What received TLCs that left may have added without being credited. */
  ghost function Unasked(before: Snapshot, next: Stated, context: Context): int {
    Total(LeftOf(before, next), MayHavePaid(context)) - CreditIn(before, next, context)
  }

  /** Nothing fell, or offered TLCs that left took it: some set of them exactly, up to what
      was added unasked; or simply enough of them, where more than twelve left. */
  ghost predicate Explained(left: seq<Tlc>, fall: int, unasked: nat) {
    || fall <= 0
    || if |OfferedOf(left)| > 12 then Total(left, IS_OFFERED) >= fall
       else exists paid, added :: Explains(left, paid, added, fall, unasked)
  }

  /** The offered TLCs some explanation names, or all of them where more than twelve left. */
  ghost function Charges(left: seq<Tlc>, fall: int, unasked: nat): seq<Tlc> {
    var offered := OfferedOf(left);
    if fall + unasked <= 0 then []
    else if |offered| > 12 then offered
    else
      var amounts, lowest, highest := Amounts(offered), if fall > 0 then fall else 0, fall + unasked;
      Pick(offered, set i | 0 <= i < |offered| && IsNamed(amounts, i, lowest, highest))
  }

  lemma {:induction false} FallIs(before: Snapshot, next: Stated, context: Context)
    ensures Fall(before, next, context) == Shortfall(before, next, context)
    ensures Unasked(before, next, context) == Departed(before, next, context).uncredited
    ensures CreditIn(before, next, context) == Departed(before, next, context).credit
  {
    CreditTotal(LeftOf(before, next), context, before.credited);
    UnaskedIs(LeftOf(before, next), context, before.credited);
    TotalAlike(before.tlcs, IS_OFFERED, OFFERED);
    TotalAlike(next.tlcs, IS_OFFERED, OFFERED);
    hide Accrue, CreditsOf, Total;
  }

  lemma {:induction false} TotalAlike(tlcs: seq<Tlc>, a: Tlc -> bool, b: Tlc -> bool)
    requires forall tlc :: a(tlc) == b(tlc)
    ensures Total(tlcs, a) == Total(tlcs, b)
  {
    TotalWider(tlcs, a, b);
    TotalWider(tlcs, b, a);
  }

  lemma {:induction false} OfferedTotal(left: seq<Tlc>)
    ensures Total(OfferedOf(left), OFFERED) == Total(left, IS_OFFERED)
  {
    OfferedOfFacts(left);
    TotalAlike(left, IS_OFFERED, OFFERED);
  }

  lemma {:induction false} ChargesAre(left: seq<Tlc>, fall: int, unasked: nat)
    ensures Charged(left, fall, unasked).Accept? <==> Explained(left, fall, unasked)
    ensures Charged(left, fall, unasked).Accept? ==> Charged(left, fall, unasked).value == Charges(left, fall, unasked)
  {
    OfferedTotal(left);
    if |OfferedOf(left)| <= 12 {
      RefusesExactlyTheUnexplained(left, fall, unasked);
    }
    PickNone(OfferedOf(left));
    assert OfferedOf(left) == [] ==> Charges(left, fall, unasked) == [];
    hide Total, IsNamed, Pick;
  }

  // ---- What it may draw

  /** What a view takes of a payment's budget. */
  function Takes(s: Snapshot, bound: Bound): nat {
    Total(s.tlcs, OffersUnder(bound)) + Get(s.charged, bound)
  }

  function Worse(a: nat, b: nat): nat {
    if a < b then b else a
  }

  /** What the other channels take of it, each at its worse view. */
  ghost function TakenElsewhere(context: Context, bound: Bound): map<nat, int> {
    map other | other in context.others :: Worse(Takes(context.others[other].remote, bound),
      Takes(context.others[other].local, bound))
  }

  /** A payment takes no more than either view did, or its intent is
      open and covers it with all the other channels take. */
  ghost predicate Affords(views: Views, context: Context, bound: Bound, takes: nat) {
    || takes <= Worse(Takes(views.remote, bound), Takes(views.local, bound))
    || (bound in context.intents && context.intents[bound].open
        && takes + Sum<nat>(TakenElsewhere(context, bound)) <= context.intents[bound].maximum)
  }

  lemma {:induction false} TakesIs(s: Snapshot, bound: Bound)
    ensures Takes(s, bound) == Drawn(s, bound)
  {
    TotalAlike(s.tlcs, OffersUnder(bound), OfferedUnder(bound));
  }

  lemma {:induction false} TakenIs(context: Context, bound: Bound)
    ensures TakenElsewhere(context, bound) == OtherDraws(context, bound)
  {
    forall s: Snapshot {
      TakesIs(s, bound);
    }
    hide Takes, Drawn;
  }

  lemma {:induction false} AffordsIs(view: View, views: Views, after: Snapshot, context: Context, bound: Bound)
    ensures Affords(views, context, bound, Takes(after, bound)) <==> !Overdraws(view, views, after, context, bound)
  {
    TakesIs(after, bound);
    TakesIs(views.remote, bound);
    TakesIs(views.local, bound);
    TakenIs(context, bound);
    hide Takes, Drawn, OtherDraws, TakenElsewhere;
  }

  // ---- What it may show

  /** The list shows an offered TLC and a received one of a released invoice. */
  predicate ShowsBoth(context: Context, tlcs: seq<Tlc>) {
    (exists tlc :: tlc in tlcs && tlc.direction == Offered) && exists tlc :: tlc in tlcs && PaysReleased(context, tlc)
  }

  /** The list has the TLC once more often than it was before. */
  predicate IsNew(before: seq<Tlc>, next: seq<Tlc>, tlc: Tlc) {
    multiset(next)[tlc] > multiset(before)[tlc]
  }

  lemma {:induction false} NewIsAdded(before: seq<Tlc>, next: seq<Tlc>, tlc: Tlc)
    ensures IsNew(before, next, tlc) <==> tlc in Difference(next, multiset(before))
  {
    DifferenceIsMultisetDifference(next, multiset(before));
    assert tlc in Difference(next, multiset(before)) <==> tlc in multiset(Difference(next, multiset(before)));
  }

  /** A channel shows both kinds only if it did, and then adds neither. */
  predicate MixesNoMore(view: View, views: Views, next: seq<Tlc>, context: Context) {
    var other := if view == Remote then views.local.tlcs else views.remote.tlcs;
    var before := if view == Remote then views.remote.tlcs else views.local.tlcs;
    ShowsBoth(context, next + other) ==>
      && ShowsBoth(context, before + other)
      && forall tlc :: tlc in next && IsNew(before, next, tlc) ==>
        tlc.direction == Received && !PaysReleased(context, tlc)
  }

  lemma {:induction false} MixesIs(view: View, views: Views, next: seq<Tlc>, context: Context)
    ensures MixesNoMore(view, views, next, context) <==> !BringsMix(view, views, next, context)
  {
    var before := views.Of(view).tlcs;
    forall tlc {
      NewIsAdded(before, next, tlc);
    }
    ShowsIs(context, Difference(next, multiset(before)));
    ShowsIs(context, next + views.Of(Other(view)).tlcs);
    ShowsIs(context, before + views.Of(Other(view)).tlcs);
    assert forall tlc :: IsNew(before, next, tlc) ==> tlc in multiset(next);
    hide Difference, ShowsOffered, ShowsReleasedHeld, PaysReleased, IsNew;
  }

  lemma {:induction false} ShowsIs(context: Context, tlcs: seq<Tlc>)
    ensures Mixes(context, tlcs) <==> ShowsBoth(context, tlcs)
    ensures ShowsOffered(tlcs) <==> exists tlc :: tlc in tlcs && tlc.direction == Offered
    ensures ShowsReleasedHeld(context, tlcs) <==> exists tlc :: tlc in tlcs && PaysReleased(context, tlc)
  {
    assert forall tlc :: IsReleasedHeld(context, tlc) <==> PaysReleased(context, tlc);
  }

  /** Every received TLC of a released invoice it adds is locked with the invoice's algorithm. */
  predicate LocksAlike(before: seq<Tlc>, next: seq<Tlc>, context: Context) {
    forall tlc :: tlc in next && IsNew(before, next, tlc) && PaysReleased(context, tlc) ==>
      tlc.algorithm == context.invoices[tlc.bound].algorithm
  }

  lemma {:induction false} LocksIs(before: seq<Tlc>, next: seq<Tlc>, context: Context)
    ensures LocksAlike(before, next, context) <==> !AddsOtherAlgorithm(before, next, context)
  {
    forall tlc {
      NewIsAdded(before, next, tlc);
    }
    assert forall tlc :: IsNew(before, next, tlc) ==> tlc in multiset(next);
    hide Difference, IsNew;
    assert forall tlc :: IsReleasedHeld(context, tlc) <==> PaysReleased(context, tlc);
  }

  /** Every TLC it offers under an intent's bound bytes is the intent's own. */
  predicate OffersOwn(next: seq<Tlc>, context: Context) {
    forall tlc :: tlc in next && tlc.direction == Offered && tlc.bound in context.intents ==>
      Fits(tlc, context.intents[tlc.bound].hash)
  }

  // ---- The rule

  /** What a hash would take of its budget past the commitment. */
  ghost function TakesNow(before: Snapshot, next: Stated, context: Context, bound: Bound): nat
    requires Unasked(before, next, context) >= 0
  {
    Total(next.tlcs, OffersUnder(bound)) + Get(before.charged, bound)
    + Total(Charges(LeftOf(before, next), Fall(before, next, context), Unasked(before, next, context)),
      OffersUnder(bound))
  }

  ghost predicate Acceptable(view: View, views: Views, next: Stated, context: Context) {
    var before := if view == Remote then views.remote else views.local;
    && OffersOwn(next.tlcs, context)
    && Unasked(before, next, context) >= 0
    && Explained(LeftOf(before, next), Fall(before, next, context), Unasked(before, next, context))
    && (forall tlc :: tlc in next.tlcs && tlc.direction == Offered ==>
          Affords(views, context, tlc.bound, TakesNow(before, next, context, tlc.bound)))
    && MixesNoMore(view, views, next.tlcs, context)
    && LocksAlike(before.tlcs, next.tlcs, context)
  }

  lemma {:induction false} TwinsAre(next: seq<Tlc>, context: Context)
    ensures OffersOwn(next, context) <==> !OffersTwins(context, next)
  {
  }

  lemma {:induction false} TakesAfter(before: Snapshot, next: Stated, context: Context, bound: Bound)
    requires ChargedNow(before, next, context).Accept?
    ensures Unasked(before, next, context) >= 0
    ensures Takes(After(before, next, context), bound) == TakesNow(before, next, context, bound)
  {
    FallIs(before, next, context);
    var left, fall, unasked := LeftOf(before, next), Fall(before, next, context), Unasked(before, next, context);
    ChargesAre(left, fall, unasked);
    ChargesCoverShortfall(left, fall, unasked);
    ChargesUnder(before.charged, Charges(left, fall, unasked), bound);
    TotalAlike(Charges(left, fall, unasked), OffersUnder(bound), OfferedUnder(bound));
    hide Charges, WithCharges, Total, Fall, Unasked, Charged, Difference, Accrue;
  }

  lemma {:induction false} DrawsAre(view: View, views: Views, next: Stated, context: Context)
    requires ChargedNow(views.Of(view), next, context).Accept?
    ensures Unasked(views.Of(view), next, context) >= 0
    ensures (forall tlc :: tlc in next.tlcs && tlc.direction == Offered ==>
               Affords(views, context, tlc.bound, TakesNow(views.Of(view), next, context, tlc.bound)))
            <==> !AnyOverdraws(view, views, After(views.Of(view), next, context), context)
  {
    var after := After(views.Of(view), next, context);
    FallIs(views.Of(view), next, context);
    forall tlc | tlc in next.tlcs && tlc.direction == Offered
      ensures Affords(views, context, tlc.bound, TakesNow(views.Of(view), next, context, tlc.bound))
              <==> !Overdraws(view, views, after, context, tlc.bound)
    {
      TakesAfter(views.Of(view), next, context, tlc.bound);
      AffordsIs(view, views, after, context, tlc.bound);
    }
    assert after.tlcs == next.tlcs;
    hide Affords, Overdraws, Takes, TakesNow, Fall, Unasked, ChargedNow, Departed, WithCharges;
  }

  /** A commitment is accepted exactly when: what it offers under an intent is the intent's; what its view loses, past
      the credit owed, is explained; what each hash it offers under takes is no more than before or covered; it brings
      no mix; and what it adds of a released invoice opens with the preimage. */
  lemma {:induction false} AcceptedExactly(view: View, views: Views, next: Stated, context: Context)
    ensures Judge(view, views, next, context).Accept? <==> Acceptable(view, views, next, context)
    ensures Judge(view, views, next, context).Refuse? ==> Judge(view, views, next, context) == Refuse(PolicyRefusal)
  {
    var before := views.Of(view);
    TwinsAre(next.tlcs, context);
    FallIs(before, next, context);
    ChargesAre(LeftOf(before, next), Fall(before, next, context), Unasked(before, next, context));
    if ChargedNow(before, next, context).Accept? {
      DrawsAre(view, views, next, context);
    }
    MixesIs(view, views, next.tlcs, context);
    LocksIs(before.tlcs, next.tlcs, context);
    hide OffersOwn, OffersTwins, Explained, Charged, Fall, Unasked, Shortfall, Departed, Affords, TakesNow,
      AnyOverdraws,
         MixesNoMore, BringsMix, LocksAlike, AddsOtherAlgorithm, After, Difference;
  }

  /** The snapshot it leaves: what it states, the new charges beside the old, and each invoice's credit. */
  lemma {:induction false} AcceptedSnapshot(view: View, views: Views, next: Stated, context: Context)
    requires Judge(view, views, next, context).Accept?
    ensures var before := views.Of(view);
            var after := Judge(view, views, next, context).value;
            var left := LeftOf(before, next);
            && after.exposure == next.exposure && after.tlcs == next.tlcs
            && Unasked(before, next, context) >= 0
            && var charges := Charges(left, Fall(before, next, context), Unasked(before, next, context));
               && (forall bound: Bound ::
                     Get(after.charged, bound) == Get(before.charged, bound) + Total(charges, OffersUnder(bound)))
               && (forall bound: Bound ::
                     bound in after.charged
                     <==> bound in before.charged || exists tlc :: tlc in charges && tlc.bound == bound)
               && (forall bound: Bound ::
                     Get(after.credited, bound)
                     == Get(before.credited, bound) + CreditTo(left, context, before.credited, bound))
  {
    var before := views.Of(view);
    var left := LeftOf(before, next);
    FallIs(before, next, context);
    ChargesAre(left, Fall(before, next, context), Unasked(before, next, context));
    var charges := Charges(left, Fall(before, next, context), Unasked(before, next, context));
    ChargesCoverShortfall(left, Fall(before, next, context), Unasked(before, next, context));
    forall bound: Bound
      ensures Get(WithCharges(before.charged, charges), bound)
              == Get(before.charged, bound) + Total(charges, OffersUnder(bound))
    {
      ChargesUnder(before.charged, charges, bound);
      TotalAlike(charges, OffersUnder(bound), OfferedUnder(bound));
    }
    forall bound: Bound
      ensures Get(Departed(before, next, context).credited, bound)
              == Get(before.credited, bound) + CreditTo(left, context, before.credited, bound)
    {
      AccrualIs(left, context, before.credited, bound);
    }
    ChargedKeys(before.charged, charges);
    hide Charged, Charges, Fall, Unasked, Shortfall, Accrue, AnyOverdraws, BringsMix, AddsOtherAlgorithm, OffersTwins,
         WithCharges, CreditTo, Difference, Total;
  }

  lemma {:induction false} ChargedKeys(charged: map<Bound, nat>, tlcs: seq<Tlc>)
    ensures forall bound: Bound ::
              bound in WithCharges(charged, tlcs)
              <==> bound in charged || exists tlc :: tlc in tlcs && tlc.bound == bound
  {
    if tlcs != [] {
      var last := |tlcs| - 1;
      ChargedKeys(charged, tlcs[..last]);
      assert tlcs == tlcs[..last] + [tlcs[last]];
    }
  }
}
