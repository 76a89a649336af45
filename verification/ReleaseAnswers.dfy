/** What the judgement of a release answers, both ways: when a preimage may go out, and what each refusal means. */
module ReleaseAnswers {
  import opened Outcomes
  import opened Sums
  import opened Payments
  import opened HoldRelease

  /** The TLC is under the invoice's bound bytes and, where it binds a whole hash, under the invoice's. */
  predicate IsUnder(tlc: Tlc, hash: PaymentHash) {
    tlc.bound == hash.bound && (tlc.full == None || tlc.full == Some(hash))
  }

  predicate Shows(views: Views, tlc: Tlc) {
    tlc in views.remote.tlcs || tlc in views.local.tlcs
  }

  /** A view of the channel shows the invoice locked with another algorithm. */
  ghost predicate LockedOtherwise(views: Views, invoice: Invoice) {
    exists tlc :: Shows(views, tlc) && IsUnder(tlc, invoice.hash) && tlc.algorithm != invoice.algorithm
  }

  /** A view of the channel shows the invoice, and one of them an offered TLC. */
  ghost predicate BesideOffered(views: Views, invoice: Invoice) {
    (exists tlc :: Shows(views, tlc) && IsUnder(tlc, invoice.hash))
    && exists tlc :: Shows(views, tlc) && tlc.direction == Offered
  }

  ghost predicate RulesOut(views: Views, invoice: Invoice) {
    LockedOtherwise(views, invoice) || BesideOffered(views, invoice)
  }

  function UnderHash(hash: PaymentHash): Tlc -> bool {
    (tlc: Tlc) => IsUnder(tlc, hash)
  }

  /** What each channel shows of the invoice, at its view showing less. */
  function LesserShown(channels: map<nat, Views>, hash: PaymentHash): map<nat, nat> {
    map index | index in channels ::
      var remote, local := Total(channels[index].remote.tlcs, UnderHash(hash)), Total(channels[index].local.tlcs,
        UnderHash(hash));
      if remote < local then remote else local
  }

  /** Every TLC of the invoice the channel shows expires after its margin, which the channel has. */
  ghost predicate Expires(views: Views, index: nat, hash: PaymentHash, timing: Timing) {
    forall tlc :: Shows(views, tlc) && IsUnder(tlc, hash) ==>
      index in timing.margins && tlc.expirySeconds * 1000 > timing.nowMs + timing.margins[index]
  }

  lemma {:induction false} ListedIs(tlcs: seq<Tlc>, hash: PaymentHash, tlc: Tlc)
    ensures tlc in Listed(tlcs, hash) <==> tlc in tlcs && IsUnder(tlc, hash)
  {
    if tlcs != [] {
      ListedIs(tlcs[1..], hash, tlc);
      assert tlcs == [tlcs[0]] + tlcs[1..];
    }
  }

  lemma {:induction false} ListedTotal(tlcs: seq<Tlc>, hash: PaymentHash)
    ensures AmountOfAll(Listed(tlcs, hash)) == Total(tlcs, UnderHash(hash))
  {
    if tlcs != [] {
      ListedTotal(tlcs[1..], hash);
      AmountSplit(if OfInvoice(hash)(tlcs[0]) then [tlcs[0]] else [], Listed(tlcs[1..], hash));
      if OfInvoice(hash)(tlcs[0]) {
        assert [tlcs[0]][..0] == [];
        assert AmountOfAll([tlcs[0]]) == tlcs[0].amount;
      }
    }
  }

  lemma {:induction false} ListedInBothAre(views: Views, hash: PaymentHash, tlc: Tlc)
    ensures tlc in ListedInBoth(views, hash) <==> Shows(views, tlc) && IsUnder(tlc, hash)
  {
    ListedIs(views.remote.tlcs, hash, tlc);
    ListedIs(views.local.tlcs, hash, tlc);
  }

  /** One channel's part in the judgement. */
  lemma {:induction false} ChannelIs(views: Views, invoice: Invoice)
    ensures OtherAlgorithm(views, invoice) <==> LockedOtherwise(views, invoice)
    ensures OfferedBeside(views, invoice) <==> BesideOffered(views, invoice)
  {
    forall tlc {
      ListedInBothAre(views, invoice.hash, tlc);
    }
    hide ListedInBoth, IsUnder;
    var listed := ListedInBoth(views, invoice.hash);
    assert listed != [] <==> exists tlc :: tlc in listed by {
      if listed != [] {
        assert listed[0] in listed;
      }
    }
  }

  lemma {:induction false} LesserIs(channels: map<nat, Views>, hash: PaymentHash)
    ensures LesserShown(channels, hash) == HeldMap(channels, hash)
  {
    forall index | index in channels
      ensures LesserShown(channels, hash)[index] == HeldMap(channels, hash)[index]
    {
      ListedTotal(channels[index].remote.tlcs, hash);
      ListedTotal(channels[index].local.tlcs, hash);
    }
  }

  // ---- The channels, in the order listed

  /** What the first channel to rule a release out has against it. */
  lemma {:induction false} ChannelFaultIs(order: seq<nat>, channels: map<nat, Views>, invoice: Invoice)
    requires forall index :: index in order ==> index in channels
    ensures ChannelFault(order, channels, invoice).None?
            <==> forall k :: 0 <= k < |order| ==> !RulesOut(channels[order[k]], invoice)
    ensures forall k :: 0 <= k < |order| && RulesOut(channels[order[k]], invoice)
                        && (forall j :: 0 <= j < k ==> !RulesOut(channels[order[j]], invoice)) ==>
              ChannelFault(order, channels, invoice)
              == Some(if LockedOtherwise(channels[order[k]], invoice) then AlgorithmMismatch else OfferedInFlight)
  {
    hide OtherAlgorithm, OfferedBeside, LockedOtherwise, BesideOffered;
    if order != [] {
      ChannelIs(channels[order[0]], invoice);
      ChannelFaultIs(order[1..], channels, invoice);
      assert forall k :: 1 <= k < |order| ==> order[k] == order[1..][k - 1];
      forall k | 0 <= k < |order| && RulesOut(channels[order[k]], invoice)
                 && (forall j :: 0 <= j < k ==> !RulesOut(channels[order[j]], invoice))
        ensures ChannelFault(order, channels, invoice)
                == Some(if LockedOtherwise(channels[order[k]], invoice) then AlgorithmMismatch else OfferedInFlight)
      {
        if k > 0 {
          assert !RulesOut(channels[order[0]], invoice);
          assert forall j :: 0 <= j < k - 1 ==> order[1..][j] == order[j + 1];
        }
      }
    }
  }

  lemma {:induction false} LateIs(views: Views, index: nat, hash: PaymentHash, timing: Timing)
    ensures Expires(views, index, hash, timing) <==>
              || ListedInBoth(views, hash) == []
              || (index in timing.margins && !Late(ListedInBoth(views, hash), timing.nowMs + timing.margins[index]))
  {
    forall tlc {
      ListedInBothAre(views, hash, tlc);
    }
    hide ListedInBoth, IsUnder, Shows;
    var listed := ListedInBoth(views, hash);
    if listed != [] {
      assert listed[0] in listed;
    }
  }

  /** What the first channel with a TLC expiring too soon has against it. */
  lemma {:induction false} TimingFaultIs(order: seq<nat>, channels: map<nat, Views>, hash: PaymentHash, timing: Timing)
    requires forall index :: index in order ==> index in channels
    ensures TimingFault(order, channels, hash, timing).None?
            <==> forall k :: 0 <= k < |order| ==> Expires(channels[order[k]], order[k], hash, timing)
    ensures forall k :: 0 <= k < |order| && !Expires(channels[order[k]], order[k], hash, timing)
                        && (forall j :: 0 <= j < k ==> Expires(channels[order[j]], order[j], hash, timing)) ==>
              TimingFault(order, channels, hash, timing)
              == Some(if order[k] in timing.margins then ExpiryTooClose else HostError)
  {
    hide Late, Expires, ListedInBoth;
    if order != [] {
      LateIs(channels[order[0]], order[0], hash, timing);
      TimingFaultIs(order[1..], channels, hash, timing);
      assert forall k :: 1 <= k < |order| ==> order[k] == order[1..][k - 1];
      forall k | 0 <= k < |order| && !Expires(channels[order[k]], order[k], hash, timing)
                 && (forall j :: 0 <= j < k ==> Expires(channels[order[j]], order[j], hash, timing))
        ensures TimingFault(order, channels, hash, timing)
                == Some(if order[k] in timing.margins then ExpiryTooClose else HostError)
      {
        if k > 0 {
          assert Expires(channels[order[0]], order[0], hash, timing);
          assert forall j :: 0 <= j < k - 1 ==> order[1..][j] == order[j + 1];
        }
      }
    }
  }

  // ---- The judgement

  ghost predicate NoneRulesOut(channels: map<nat, Views>, invoice: Invoice) {
    forall index :: index in channels ==> !RulesOut(channels[index], invoice)
  }

  ghost predicate AllExpire(channels: map<nat, Views>, hash: PaymentHash, timing: Timing) {
    forall index :: index in channels ==> Expires(channels[index], index, hash, timing)
  }

  lemma {:induction false} InOrderOrNot(order: seq<nat>, channels: map<nat, Views>, invoice: Invoice, timing: Timing)
    requires channels.Keys == set index | index in order
    ensures NoneRulesOut(channels, invoice) <==> forall k :: 0 <= k < |order| ==> !RulesOut(channels[order[k]], invoice)
    ensures AllExpire(channels, invoice.hash, timing)
            <==> forall k :: 0 <= k < |order| ==> Expires(channels[order[k]], order[k], invoice.hash, timing)
  {
    hide RulesOut, Expires;
    assert forall index :: index in channels ==> exists k :: 0 <= k < |order| && order[k] == index by {
      assert forall index :: index in channels ==> index in order;
    }
    assert forall k :: 0 <= k < |order| ==> order[k] in channels;
  }

  /** An invoice's preimage may be released exactly when no channel shows it under another algorithm or beside an
      offered TLC, the channels show its amount at their lesser views, and every TLC of it expires late enough. */
  lemma {:induction false} ReleasedExactly(invoice: Invoice, order: seq<nat>, channels: map<nat, Views>, timing: Timing)
    requires NoRepeats(order) && channels.Keys == set index | index in order
    ensures ReleaseFault(invoice, order, channels, timing).None?
            <==> && NoneRulesOut(channels, invoice)
                 && Sum(LesserShown(channels, invoice.hash)) >= invoice.amount
                 && AllExpire(channels, invoice.hash, timing)
  {
    hide ChannelFault, TimingFault, HeldBy, LesserShown, HeldMap, NoneRulesOut, AllExpire;
    ChannelFaultIs(order, channels, invoice);
    TimingFaultIs(order, channels, invoice.hash, timing);
    InOrderOrNot(order, channels, invoice, timing);
    HeldByIsSum(order, channels, invoice.hash);
    LesserIs(channels, invoice.hash);
  }

  /** And each refusal means the first thing in the way: of the channels in the
      order listed, then of the amount, then of the expiries in that order. */
  lemma {:induction false} RefusedExactly(invoice: Invoice, order: seq<nat>, channels: map<nat, Views>, timing: Timing)
    requires NoRepeats(order) && channels.Keys == set index | index in order
    ensures forall k :: 0 <= k < |order| && RulesOut(channels[order[k]], invoice)
                        && (forall j :: 0 <= j < k ==> !RulesOut(channels[order[j]], invoice)) ==>
              ReleaseFault(invoice, order, channels, timing)
              == Some(if LockedOtherwise(channels[order[k]], invoice) then AlgorithmMismatch else OfferedInFlight)
    ensures NoneRulesOut(channels, invoice) && Sum(LesserShown(channels, invoice.hash)) < invoice.amount ==>
              ReleaseFault(invoice, order, channels, timing) == Some(NotHeld)
    ensures forall k :: && NoneRulesOut(channels, invoice) && Sum(LesserShown(channels, invoice.hash)) >= invoice.amount
                        && 0 <= k < |order| && !Expires(channels[order[k]], order[k], invoice.hash, timing)
                        && (forall j :: 0 <= j < k ==> Expires(channels[order[j]], order[j], invoice.hash, timing)) ==>
              ReleaseFault(invoice, order, channels, timing)
              == Some(if order[k] in timing.margins then ExpiryTooClose else HostError)
  {
    hide ChannelFault, TimingFault, HeldBy, LesserShown, HeldMap, NoneRulesOut, AllExpire, RulesOut, Expires,
      LockedOtherwise;
    ChannelFaultIs(order, channels, invoice);
    TimingFaultIs(order, channels, invoice.hash, timing);
    InOrderOrNot(order, channels, invoice, timing);
    HeldByIsSum(order, channels, invoice.hash);
    LesserIs(channels, invoice.hash);
  }
}
