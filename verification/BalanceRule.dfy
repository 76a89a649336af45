/** The balance rule: what a commitment may state, given its view's
    previous message and the device's payment records. */
module BalanceRule {
  import opened Outcomes
  import opened Sums
  import opened Payments
  import opened ChargeSearch

  const MAX_SHUTDOWN_FEE_SHANNONS: nat := 100_000_000

  /** What the rule is given of a commitment: the device's side of its settlement, and its TLCs. */
  datatype Stated = Stated(exposure: nat, tlcs: seq<Tlc>)

  // ---- Step 1: same bound bytes as an intent, another whole hash

  predicate IsTwin(context: Context, tlc: Tlc) {
    tlc.direction.Offered? && tlc.bound in context.intents && IntentOf(context, tlc).None?
  }

  predicate OffersTwins(context: Context, tlcs: seq<Tlc>) {
    exists tlc :: tlc in tlcs && IsTwin(context, tlc)
  }

  // ---- Step 2: what the received TLCs that left are credited

  datatype Accrual = Accrual(credited: map<Bound, nat>, credit: nat, uncredited: nat)

  ghost function SureCredits(context: Context, bound: Bound): map<nat, int> {
    map i | i in context.others ::
      Min(Get(context.others[i].remote.credited, bound), Get(context.others[i].local.credited, bound))
  }

  /** The least an invoice can have brought in, whichever view of every other channel settles. */
  ghost function CreditedAcross(credited: map<Bound, nat>, context: Context, bound: Bound): int {
    Get(credited, bound) + Sum(SureCredits(context, bound))
  }

  /** Accounts for one TLC that left: credited up to what its released invoice still owes, the rest unasked. */
  ghost function AccrueOne(tlc: Tlc, context: Context, a: Accrual): Accrual {
    if tlc.direction.Offered? then a
    else if InvoiceOf(context, tlc).None? then a.(uncredited := a.uncredited + tlc.amount)
    else if !InvoiceOf(context, tlc).value.released then a
    else
      var owed := InvoiceOf(context, tlc).value.amount - CreditedAcross(a.credited, context, tlc.bound);
      var credited: nat := Min(tlc.amount, Max(owed, 0));
      Accrual(
        if credited > 0 then a.credited[tlc.bound := Get(a.credited, tlc.bound) + credited] else a.credited,
        a.credit + credited,
        a.uncredited + tlc.amount - credited)
  }

  ghost function Accrue(left: seq<Tlc>, context: Context, credited: map<Bound, nat>): Accrual {
    if left == [] then Accrual(credited, 0, 0) else
      var last := |left| - 1;
      AccrueOne(left[last], context, Accrue(left[..last], context, credited))
  }

  // ---- Step 3: charges

  function WithCharges(charged: map<Bound, nat>, tlcs: seq<Tlc>): map<Bound, nat> {
    if tlcs == [] then charged else
      var last := |tlcs| - 1;
      var before := WithCharges(charged, tlcs[..last]);
      before[tlcs[last].bound := Get(before, tlcs[last].bound) + tlcs[last].amount]
  }

  // ---- Step 4: what the channel may draw

  ghost function OtherDraws(context: Context, bound: Bound): map<nat, int> {
    map i | i in context.others :: ChannelDraw(context.others[i], bound)
  }

  /** A channel draws more under a hash only against an open intent, and within it across every channel. */
  ghost predicate Overdraws(view: View, views: Views, after: Snapshot, context: Context, bound: Bound) {
    && Drawn(after, bound) > Max(Drawn(views.Of(view), bound), Drawn(views.Of(Other(view)), bound))
    && (bound !in context.intents
        || !context.intents[bound].open
        || Drawn(after, bound) + Sum(OtherDraws(context, bound)) > context.intents[bound].maximum)
  }

  ghost predicate AnyOverdraws(view: View, views: Views, after: Snapshot, context: Context) {
    exists tlc :: tlc in after.tlcs && tlc.direction.Offered? && Overdraws(view, views, after, context, tlc.bound)
  }

  // ---- Step 5: two kinds a channel must not show at once

  predicate ShowsOffered(tlcs: seq<Tlc>) {
    exists tlc :: tlc in tlcs && tlc.direction.Offered?
  }

  predicate ShowsReleasedHeld(context: Context, tlcs: seq<Tlc>) {
    exists tlc :: tlc in tlcs && IsReleasedHeld(context, tlc)
  }

  predicate Mixes(context: Context, tlcs: seq<Tlc>) {
    ShowsOffered(tlcs) && ShowsReleasedHeld(context, tlcs)
  }

  /** A channel showing both kinds may only shrink, and no commitment may bring one about. */
  predicate BringsMix(view: View, views: Views, next: seq<Tlc>, context: Context) {
    var previous := views.Of(view).tlcs;
    var other := views.Of(Other(view)).tlcs;
    var added := Difference(next, multiset(previous));
    && Mixes(context, next + other)
    && (!Mixes(context, previous + other) || ShowsOffered(added) || ShowsReleasedHeld(context, added))
  }

  // ---- Step 6: a lock the released preimage leaves shut

  predicate ShowsOtherAlgorithm(context: Context, tlcs: seq<Tlc>) {
    exists tlc :: tlc in tlcs && IsReleasedHeld(context, tlc)
      && tlc.algorithm != InvoiceOf(context, tlc).value.algorithm
  }

  predicate AddsOtherAlgorithm(previous: seq<Tlc>, next: seq<Tlc>, context: Context) {
    ShowsOtherAlgorithm(context, Difference(next, multiset(previous)))
  }

  // ---- The rule

  /** What the departed TLCs of a commitment amount to. */
  ghost function Departed(previous: Snapshot, next: Stated, context: Context): Accrual {
    Accrue(Difference(previous.tlcs, multiset(next.tlcs)), context, previous.credited)
  }

  /** How far the new holdings are below the old ones and the new credit; negative when they are above. */
  ghost function Shortfall(previous: Snapshot, next: Stated, context: Context): int {
    Holdings(previous.exposure, previous.tlcs)
      + Departed(previous, next, context).credit - Holdings(next.exposure, next.tlcs)
  }

  ghost function ChargedNow(previous: Snapshot, next: Stated, context: Context): Outcome<seq<Tlc>> {
    Charged(Difference(previous.tlcs, multiset(next.tlcs)), Shortfall(previous, next, context),
            Departed(previous, next, context).uncredited)
  }

  /** The snapshot an accepted commitment replaces its view's with. */
  ghost function After(previous: Snapshot, next: Stated, context: Context): Snapshot
    requires ChargedNow(previous, next, context).Accept?
  {
    Snapshot(next.exposure, next.tlcs,
             WithCharges(previous.charged, ChargedNow(previous, next, context).value),
             Departed(previous, next, context).credited)
  }

  /** The whole rule: a new snapshot, or a refusal at the first step that finds a fault. */
  ghost function Judge(view: View, views: Views, next: Stated, context: Context): Outcome<Snapshot> {
    if OffersTwins(context, next.tlcs) then Refuse(PolicyRefusal)
    else if ChargedNow(views.Of(view), next, context).Refuse? then Refuse(PolicyRefusal)
    else
      var after := After(views.Of(view), next, context);
      if AnyOverdraws(view, views, after, context) then Refuse(PolicyRefusal)
      else if BringsMix(view, views, next.tlcs, context) then Refuse(PolicyRefusal)
      else if AddsOtherAlgorithm(views.Of(view).tlcs, next.tlcs, context) then Refuse(PolicyRefusal)
      else Accept(after)
  }

  /** A channel starts bare, its exposure equal to its funding. */
  predicate OpensAt(funded: nat, next: Stated) {
    next.tlcs == [] && next.exposure == funded
  }

  /** Both views are bare, and the payout is short of neither exposure by more than the fee bound. */
  predicate ClosesFairly(views: Views, payout: nat) {
    forall view: View ::
      views.Of(view).tlcs == [] && payout + MAX_SHUTDOWN_FEE_SHANNONS >= views.Of(view).exposure
  }
}
