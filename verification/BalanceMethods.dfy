/** The rule's loops, each proved against the function that specifies it. */
module BalanceMethods {
  import opened Outcomes
  import opened Sums
  import opened Payments
  import opened ChargeSearch
  import opened BalanceRule

  /** Removes one multiset of TLCs from another by counting down what is left to remove. */
  method MultisetDifference(from: seq<Tlc>, remove: seq<Tlc>) returns (kept: seq<Tlc>)
    ensures kept == Difference(from, multiset(remove))
    ensures multiset(kept) == multiset(from) - multiset(remove)
  {
    var remaining: map<Tlc, nat> := map[];
    for i := 0 to |remove|
      invariant forall tlc :: Get(remaining, tlc) == multiset(remove[..i])[tlc]
    {
      assert remove[..i + 1] == remove[..i] + [remove[i]];
      remaining := remaining[remove[i] := Get(remaining, remove[i]) + 1];
    }
    assert remove[..|remove|] == remove;
    kept := [];
    ghost var left := multiset(remove);
    for i := 0 to |from|
      invariant forall tlc :: Get(remaining, tlc) == left[tlc]
      invariant kept + Difference(from[i..], left) == Difference(from, multiset(remove))
    {
      var count := Get(remaining, from[i]);
      assert from[i..][1..] == from[i + 1..];
      if count == 0 {
        assert kept + ([from[i]] + Difference(from[i + 1..], left))
               == (kept + [from[i]]) + Difference(from[i + 1..], left);
        kept := kept + [from[i]];
      } else {
        left := left - multiset{from[i]};
        remaining := remaining[from[i] := count - 1];
      }
    }
    DifferenceIsMultisetDifference(from, multiset(remove));
  }

  /** Total per hash over one direction; a hash has an entry when such a TLC shows it, and only then. */
  method SumByHash(tlcs: seq<Tlc>, direction: Direction) returns (sums: map<Bound, nat>)
    ensures forall bound :: bound in sums <==>
            exists tlc :: tlc in tlcs && tlc.direction == direction && tlc.bound == bound
    ensures forall bound :: Get(sums, bound) == Total(tlcs, Under(direction, bound))
  {
    sums := map[];
    for i := 0 to |tlcs|
      invariant forall bound :: bound in sums <==>
                exists tlc :: tlc in tlcs[..i] && tlc.direction == direction && tlc.bound == bound
      invariant forall bound :: Get(sums, bound) == Total(tlcs[..i], Under(direction, bound))
    {
      var tlc := tlcs[i];
      assert tlcs[..i + 1] == tlcs[..i] + [tlc];
      forall bound: Bound {
        TotalSnoc(tlcs[..i], tlc, Under(direction, bound));
      }
      if tlc.direction == direction {
        sums := sums[tlc.bound := Get(sums, tlc.bound) + tlc.amount];
      }
    }
    assert tlcs[..|tlcs|] == tlcs;
  }

  /** `CreditedAcross`, added up channel by channel. */
  method SumCredits(credited: map<Bound, nat>, context: Context, bound: Bound) returns (sum: int)
    ensures sum == CreditedAcross(credited, context, bound)
  {
    sum := Get(credited, bound);
    var todo := context.others.Keys;
    ghost var rest := SureCredits(context, bound);
    while todo != {}
      invariant todo == rest.Keys && rest.Keys <= context.others.Keys
      invariant forall i :: i in rest ==> rest[i] == SureCredits(context, bound)[i]
      invariant sum + Sum(rest) == CreditedAcross(credited, context, bound)
      decreases todo
    {
      var i :| i in todo;
      Pull(rest, i);
      todo, rest := todo - {i}, rest - {i};
      sum := sum + Min(Get(context.others[i].remote.credited, bound), Get(context.others[i].local.credited, bound));
    }
    assert rest == map[];
  }

  /** Sums what every other channel draws under a hash, each at its worst view. */
  method SumDraws(context: Context, bound: Bound) returns (sum: int)
    ensures sum == Sum(OtherDraws(context, bound))
  {
    sum := 0;
    var todo := context.others.Keys;
    ghost var rest := OtherDraws(context, bound);
    while todo != {}
      invariant todo == rest.Keys && rest.Keys <= context.others.Keys
      invariant forall i :: i in rest ==> rest[i] == OtherDraws(context, bound)[i]
      invariant sum + Sum(rest) == Sum(OtherDraws(context, bound))
      decreases todo
    {
      var i :| i in todo;
      Pull(rest, i);
      todo, rest := todo - {i}, rest - {i};
      sum := sum + ChannelDraw(context.others[i], bound);
    }
    assert rest == map[];
  }

  /** Accounts for one TLC that left: credited up to what its released invoice still owes. */
  method CreditOne(tlc: Tlc, context: Context, before: Accrual) returns (after: Accrual)
    ensures after == AccrueOne(tlc, context, before)
  {
    after := before;
    if tlc.direction.Received? {
      var invoice := InvoiceOf(context, tlc);
      if invoice.None? {
        after := before.(uncredited := before.uncredited + tlc.amount);
      } else if invoice.value.released {
        var sure := SumCredits(before.credited, context, tlc.bound);
        var more: nat := Min(tlc.amount, Max(invoice.value.amount - sure, 0));
        var credited := before.credited;
        if more > 0 {
          credited := credited[tlc.bound := Get(credited, tlc.bound) + more];
        }
        after := Accrual(credited, before.credit + more, before.uncredited + tlc.amount - more);
      }
    }
  }

  /** Credits the received TLCs that left, invoice by invoice. */
  method CreditLeft(left: seq<Tlc>, context: Context, before: map<Bound, nat>) returns (a: Accrual)
    ensures a == Accrue(left, context, before)
  {
    hide AccrueOne;
    a := Accrual(before, 0, 0);
    for i := 0 to |left|
      invariant a == Accrue(left[..i], context, before)
    {
      assert left[..i + 1][..i] == left[..i];
      a := CreditOne(left[i], context, a);
    }
    assert left[..|left|] == left;
  }

  method ChargeAll(before: map<Bound, nat>, tlcs: seq<Tlc>) returns (charged: map<Bound, nat>)
    ensures charged == WithCharges(before, tlcs)
  {
    charged := before;
    for i := 0 to |tlcs|
      invariant charged == WithCharges(before, tlcs[..i])
    {
      assert tlcs[..i + 1][..i] == tlcs[..i];
      charged := charged[tlcs[i].bound := Get(charged, tlcs[i].bound) + tlcs[i].amount];
    }
    assert tlcs[..|tlcs|] == tlcs;
  }

  /** Holds every hash the commitment offers under to its intent. */
  method JudgeDraws(view: View, views: Views, after: Snapshot, context: Context) returns (refused: bool)
    ensures refused <==> AnyOverdraws(view, views, after, context)
  {
    var shown := SumByHash(after.tlcs, Offered);
    var todo := shown.Keys;
    while todo != {}
      invariant todo <= shown.Keys
      invariant forall bound :: bound in shown.Keys - todo ==> !Overdraws(view, views, after, context, bound)
      decreases todo
    {
      var bound :| bound in todo;
      todo := todo - {bound};
      var here := shown[bound] + Get(after.charged, bound);
      assert here == Drawn(after, bound);
      if here > Max(Drawn(views.Of(view), bound), Drawn(views.Of(Other(view)), bound)) {
        if bound !in context.intents || !context.intents[bound].open {
          return true;
        }
        var others := SumDraws(context, bound);
        if here + others > context.intents[bound].maximum {
          return true;
        }
      }
    }
    refused := false;
  }

  method OffersTwin(tlcs: seq<Tlc>, context: Context) returns (refused: bool)
    ensures refused <==> OffersTwins(context, tlcs)
    ensures refused <==> exists tlc :: tlc in tlcs && tlc.direction == Offered && tlc.bound in context.intents
                           && tlc.full.Some? && tlc.full.value != context.intents[tlc.bound].hash
  {
    for i := 0 to |tlcs|
      invariant forall tlc :: tlc in tlcs[..i] ==> !IsTwin(context, tlc)
    {
      assert tlcs[..i + 1] == tlcs[..i] + [tlcs[i]];
      if IsTwin(context, tlcs[i]) {
        return true;
      }
    }
    assert tlcs[..|tlcs|] == tlcs;
    refused := false;
  }

  method JudgeAlgorithms(added: seq<Tlc>, context: Context) returns (refused: bool)
    ensures refused <==> ShowsOtherAlgorithm(context, added)
  {
    for i := 0 to |added|
      invariant forall tlc :: tlc in added[..i] && IsReleasedHeld(context, tlc) ==>
        tlc.algorithm == InvoiceOf(context, tlc).value.algorithm
    {
      assert added[..i + 1] == added[..i] + [added[i]];
      if IsReleasedHeld(context, added[i]) && added[i].algorithm != InvoiceOf(context, added[i]).value.algorithm {
        return true;
      }
    }
    assert added[..|added|] == added;
    refused := false;
  }

  /** Accounts for what left a view: the snapshot a commitment leads to, if its shortfall is explained. */
  method AccountForLeft(previous: Snapshot, next: Stated, context: Context) returns (r: Outcome<Snapshot>)
    ensures r.Refuse? <==> ChargedNow(previous, next, context).Refuse?
    ensures r.Refuse? ==> r == Refuse(PolicyRefusal)
    ensures r.Accept? ==> r.value == After(previous, next, context)
  {
    hide Accrue, Charged, WithCharges, Difference, Holdings;
    var left := MultisetDifference(previous.tlcs, next.tlcs);
    var accrual := CreditLeft(left, context, previous.credited);
    var shortfall := Holdings(previous.exposure, previous.tlcs) + accrual.credit - Holdings(next.exposure, next.tlcs);
    var chargedNow := ChargedTlcs(left, shortfall, accrual.uncredited);
    if chargedNow.Refuse? {
      return Refuse(PolicyRefusal);
    }
    var charged := ChargeAll(previous.charged, chargedNow.value);
    return Accept(Snapshot(next.exposure, next.tlcs, charged, accrual.credited));
  }

  /** Holds a channel showing an offered TLC beside a released held one to shrinking, and lets none begin to. */
  method JudgeMix(view: View, views: Views, next: seq<Tlc>, added: seq<Tlc>, context: Context) returns (refused: bool)
    requires added == Difference(next, multiset(views.Of(view).tlcs))
    ensures refused <==> BringsMix(view, views, next, context)
  {
    var other := views.Of(Other(view)).tlcs;
    var grows := ShowsOffered(added) || ShowsReleasedHeld(context, added);
    var before := Mixes(context, views.Of(view).tlcs + other);
    refused := Mixes(context, next + other) && (!before || grows);
  }

  /** `Judge`, as loops over what left, what is shown and what was added. */
  method JudgeCommitment(view: View, views: Views, next: Stated, context: Context) returns (r: Outcome<Snapshot>)
    ensures r == Judge(view, views, next, context)
  {
    var twin := OffersTwin(next.tlcs, context);
    if twin {
      return Refuse(PolicyRefusal);
    }
    var previous := views.Of(view);
    var after := AccountForLeft(previous, next, context);
    if after.Refuse? {
      return after;
    }
    var overdraws := JudgeDraws(view, views, after.value, context);
    if overdraws {
      return Refuse(PolicyRefusal);
    }
    var added := MultisetDifference(next.tlcs, previous.tlcs);
    var mixes := JudgeMix(view, views, next.tlcs, added, context);
    if mixes {
      return Refuse(PolicyRefusal);
    }
    var otherAlgorithm := JudgeAlgorithms(added, context);
    if otherAlgorithm {
      return Refuse(PolicyRefusal);
    }
    return after;
  }
}
