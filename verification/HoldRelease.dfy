/** The judgement of a release: its channels hold it, each counted at the view holding less. */
module HoldRelease {
  import opened Outcomes
  import opened Sums
  import opened Payments
  import opened BalanceRule

  function OfInvoice(hash: PaymentHash): Tlc -> bool {
    (tlc: Tlc) => tlc.bound == hash.bound && IsTlcOf(tlc, hash)
  }

  /** The TLCs of an invoice a view shows, in the view's order and whatever their direction. */
  function Listed(tlcs: seq<Tlc>, hash: PaymentHash): seq<Tlc> {
    if tlcs == [] then [] else
      (if OfInvoice(hash)(tlcs[0]) then [tlcs[0]] else []) + Listed(tlcs[1..], hash)
  }

  function ListedInBoth(views: Views, hash: PaymentHash): seq<Tlc> {
    Listed(views.remote.tlcs, hash) + Listed(views.local.tlcs, hash)
  }

  function AmountOfAll(tlcs: seq<Tlc>): nat {
    if tlcs == [] then 0 else AmountOfAll(tlcs[..|tlcs| - 1]) + tlcs[|tlcs| - 1].amount
  }

  /** What a channel holds of an invoice at its view holding less. */
  function HeldAtLess(views: Views, hash: PaymentHash): nat {
    Min(AmountOfAll(Listed(views.remote.tlcs, hash)), AmountOfAll(Listed(views.local.tlcs, hash)))
  }

  predicate OtherAlgorithm(views: Views, invoice: Invoice) {
    exists tlc :: tlc in ListedInBoth(views, invoice.hash) && tlc.algorithm != invoice.algorithm
  }

  predicate OfferedBeside(views: Views, invoice: Invoice) {
    ListedInBoth(views, invoice.hash) != [] && (ShowsOffered(views.remote.tlcs) || ShowsOffered(views.local.tlcs))
  }

  /** The clock reading, and the margin each channel's held TLCs must clear, absent where none can be computed. */
  datatype Timing = Timing(nowMs: nat, margins: map<nat, nat>)

  predicate Late(tlcs: seq<Tlc>, deadline: nat) {
    exists tlc :: tlc in tlcs && tlc.expirySeconds * MILLISECONDS_PER_SECOND <= deadline
  }

  /** The first fault the channels show, each checked for an algorithm
      the preimage does not open, then an offered TLC. */
  function ChannelFault(order: seq<nat>, channels: map<nat, Views>, invoice: Invoice): Option<Refusal>
    requires forall index :: index in order ==> index in channels
  {
    if order == [] then None
    else if OtherAlgorithm(channels[order[0]], invoice) then Some(AlgorithmMismatch)
    else if OfferedBeside(channels[order[0]], invoice) then Some(OfferedInFlight)
    else ChannelFault(order[1..], channels, invoice)
  }

  function HeldBy(order: seq<nat>, channels: map<nat, Views>, hash: PaymentHash): nat
    requires forall index :: index in order ==> index in channels
  {
    if order == [] then 0 else
      HeldBy(order[..|order| - 1], channels, hash) + HeldAtLess(channels[order[|order| - 1]], hash)
  }

  function TimingFault(order: seq<nat>, channels: map<nat, Views>, hash: PaymentHash, timing: Timing): Option<Refusal>
    requires forall index :: index in order ==> index in channels
  {
    if order == [] then None
    else
      var tlcs := ListedInBoth(channels[order[0]], hash);
      if tlcs == [] then TimingFault(order[1..], channels, hash, timing)
      else if order[0] !in timing.margins then Some(HostError)
      else if Late(tlcs, timing.nowMs + timing.margins[order[0]]) then Some(ExpiryTooClose)
      else TimingFault(order[1..], channels, hash, timing)
  }

  /** Why an invoice's preimage may not be released yet, if anything; the channels are read in the order listed. */
  function ReleaseFault(invoice: Invoice, order: seq<nat>, channels: map<nat, Views>, timing: Timing): Option<Refusal>
    requires forall index :: index in order ==> index in channels
  {
    var fault := ChannelFault(order, channels, invoice);
    if fault.Some? then fault
    else if HeldBy(order, channels, invoice.hash) < invoice.amount then Some(NotHeld)
    else TimingFault(order, channels, invoice.hash, timing)
  }

  datatype HeldChannel = HeldChannel(index: nat, tlcs: seq<Tlc>, amount: nat)

  method SumAmounts(tlcs: seq<Tlc>) returns (sum: nat)
    ensures sum == AmountOfAll(tlcs)
  {
    sum := 0;
    for i := 0 to |tlcs|
      invariant sum == AmountOfAll(tlcs[..i])
    {
      assert tlcs[..i + 1][..i] == tlcs[..i];
      sum := sum + tlcs[i].amount;
    }
    assert tlcs[..|tlcs|] == tlcs;
  }

  /** What one channel holds of an invoice, or why it rules the release out. */
  method HoldingOf(invoice: Invoice, index: nat, views: Views) returns (fault: Option<Refusal>, held: HeldChannel)
    ensures fault == if OtherAlgorithm(views, invoice) then Some(AlgorithmMismatch)
                     else if OfferedBeside(views, invoice) then Some(OfferedInFlight) else None
    ensures held == HeldChannel(index, ListedInBoth(views, invoice.hash), HeldAtLess(views, invoice.hash))
  {
    hide Listed, AmountOfAll, ShowsOffered;
    var tlcs := ListedInBoth(views, invoice.hash);
    fault := None;
    if exists tlc :: tlc in tlcs && tlc.algorithm != invoice.algorithm {
      fault := Some(AlgorithmMismatch);
    } else if tlcs != [] && (ShowsOffered(views.remote.tlcs) || ShowsOffered(views.local.tlcs)) {
      fault := Some(OfferedInFlight);
    }
    var remote := SumAmounts(Listed(views.remote.tlcs, invoice.hash));
    var local := SumAmounts(Listed(views.local.tlcs, invoice.hash));
    held := HeldChannel(index, tlcs, if remote < local then remote else local);
  }

  /** Gathers what each channel holds, stopping at the first that rules the release out. */
  method GatherHeld(invoice: Invoice, order: seq<nat>, channels: map<nat, Views>)
    returns (fault: Option<Refusal>, held: seq<HeldChannel>)
    requires forall index :: index in order ==> index in channels
    ensures fault == ChannelFault(order, channels, invoice)
    ensures fault.None? ==> held == HeldChannels(order, channels, invoice.hash)
  {
    hide OtherAlgorithm, OfferedBeside, ListedInBoth, HeldAtLess;
    held := [];
    for i := 0 to |order|
      invariant ChannelFault(order, channels, invoice) == ChannelFault(order[i..], channels, invoice)
      invariant held == HeldChannels(order[..i], channels, invoice.hash)
    {
      assert order[i..][1..] == order[i + 1..] && order[..i + 1][..i] == order[..i];
      var channel;
      fault, channel := HoldingOf(invoice, order[i], channels[order[i]]);
      if fault.Some? {
        return fault, [];
      }
      held := held + [channel];
    }
    assert order[|order|..] == [] && order[..|order|] == order;
    fault := None;
  }

  function HeldChannels(order: seq<nat>, channels: map<nat, Views>, hash: PaymentHash): (held: seq<HeldChannel>)
    requires forall index :: index in order ==> index in channels
    ensures |held| == |order|
    ensures forall i :: 0 <= i < |held| ==>
              && held[i].index == order[i]
              && held[i].tlcs == ListedInBoth(channels[order[i]], hash)
              && held[i].amount == HeldAtLess(channels[order[i]], hash)
  {
    if order == [] then [] else
      var last := order[|order| - 1];
      HeldChannels(order[..|order| - 1], channels, hash)
      + [HeldChannel(last, ListedInBoth(channels[last], hash), HeldAtLess(channels[last], hash))]
  }

  method IsLate(tlcs: seq<Tlc>, deadline: nat) returns (late: bool)
    ensures late <==> Late(tlcs, deadline)
  {
    for j := 0 to |tlcs|
      invariant forall i :: 0 <= i < j ==> tlcs[i].expirySeconds * MILLISECONDS_PER_SECOND > deadline
    {
      if tlcs[j].expirySeconds * MILLISECONDS_PER_SECOND <= deadline {
        return true;
      }
    }
    late := false;
  }

  method CheckDeadlines(
    held: seq<HeldChannel>, order: seq<nat>, channels: map<nat, Views>, hash: PaymentHash, timing: Timing)
    returns (fault: Option<Refusal>)
    requires forall index :: index in order ==> index in channels
    requires held == HeldChannels(order, channels, hash)
    ensures fault == TimingFault(order, channels, hash, timing)
  {
    hide HeldChannels, ListedInBoth, HeldAtLess, Late;
    for i := 0 to |held|
      invariant TimingFault(order, channels, hash, timing) == TimingFault(order[i..], channels, hash, timing)
    {
      assert order[i..][1..] == order[i + 1..];
      if held[i].tlcs != [] {
        if held[i].index !in timing.margins {
          return Some(HostError);
        }
        var late := IsLate(held[i].tlcs, timing.nowMs + timing.margins[held[i].index]);
        if late {
          return Some(ExpiryTooClose);
        }
      }
    }
    assert order[|order|..] == [];
    fault := None;
  }

  /** Judges the release as the device does: what each channel holds is gathered first, and its deadlines read last. */
  method JudgeHoldInvoiceRelease(invoice: Invoice, order: seq<nat>, channels: map<nat, Views>, timing: Timing)
    returns (fault: Option<Refusal>)
    requires forall index :: index in order ==> index in channels
    ensures fault == ReleaseFault(invoice, order, channels, timing)
  {
    hide HeldChannels, ListedInBoth, HeldAtLess, Late, ChannelFault, TimingFault;
    var held: seq<HeldChannel>;
    fault, held := GatherHeld(invoice, order, channels);
    if fault.Some? {
      return;
    }
    var amount := 0;
    for i := 0 to |order|
      invariant amount == HeldBy(order[..i], channels, invoice.hash)
    {
      assert order[..i + 1][..i] == order[..i];
      amount := amount + held[i].amount;
    }
    assert order[..|order|] == order;
    if amount < invoice.amount {
      return Some(NotHeld);
    }
    fault := CheckDeadlines(held, order, channels, invoice.hash, timing);
  }

  // ---- What a release establishes

  lemma {:induction false} ListedAre(tlcs: seq<Tlc>, hash: PaymentHash)
    ensures forall tlc :: tlc in Listed(tlcs, hash) <==> tlc in tlcs && OfInvoice(hash)(tlc)
  {
    if tlcs != [] {
      ListedAre(tlcs[1..], hash);
    }
  }

  lemma {:induction false} AmountSplit(a: seq<Tlc>, b: seq<Tlc>)
    ensures AmountOfAll(a + b) == AmountOfAll(a) + AmountOfAll(b)
  {
    if b == [] {
      assert a + b == a;
    } else {
      assert (a + b)[..|a + b| - 1] == a + b[..|b| - 1];
      AmountSplit(a, b[..|b| - 1]);
    }
  }

  /** A view that offers nothing holds exactly what it lists. */
  lemma {:induction false} ListedIsHeld(tlcs: seq<Tlc>, hash: PaymentHash)
    requires Listed(tlcs, hash) == [] || !ShowsOffered(tlcs)
    ensures AmountOfAll(Listed(tlcs, hash)) == Total(tlcs, HeldUnder(hash.bound, hash))
  {
    ListedAre(tlcs, hash);
    if tlcs != [] {
      var rest := Listed(tlcs[1..], hash);
      assert Listed(tlcs, hash) == [] ==> rest == [];
      assert ShowsOffered(tlcs[1..]) ==> ShowsOffered(tlcs);
      ListedIsHeld(tlcs[1..], hash);
      if OfInvoice(hash)(tlcs[0]) {
        AmountSplit([tlcs[0]], rest);
        assert [tlcs[0]][..0] == [];
      } else {
        assert [] + rest == rest;
      }
    }
  }

  lemma {:induction false} NoFaultAnywhere(order: seq<nat>, channels: map<nat, Views>, invoice: Invoice)
    requires forall index :: index in order ==> index in channels
    requires ChannelFault(order, channels, invoice).None?
    ensures forall index :: index in order ==>
              !OtherAlgorithm(channels[index], invoice) && !OfferedBeside(channels[index], invoice)
  {
    if order != [] {
      NoFaultAnywhere(order[1..], channels, invoice);
    }
  }

  /** What every channel holds of an invoice at its view holding less. */
  ghost function HeldMap(channels: map<nat, Views>, hash: PaymentHash): map<nat, nat> {
    map index | index in channels :: HeldAtLess(channels[index], hash)
  }

  /** No channel is listed twice. */
  predicate NoRepeats(order: seq<nat>) {
    order == [] || (order[|order| - 1] !in order[..|order| - 1] && NoRepeats(order[..|order| - 1]))
  }

  lemma {:induction false} HeldByIsSum(order: seq<nat>, channels: map<nat, Views>, hash: PaymentHash)
    requires NoRepeats(order)
    requires channels.Keys == set index | index in order
    ensures HeldBy(order, channels, hash) == Sum(HeldMap(channels, hash))
  {
    hide HeldAtLess;
    if order == [] {
      assert HeldMap(channels, hash) == map[];
    } else {
      var last := order[|order| - 1];
      var before := order[..|order| - 1];
      var rest := channels - {last};
      assert order == before + [last];
      HeldBySame(before, channels, rest, hash);
      HeldByIsSum(before, rest, hash);
      Pull(HeldMap(channels, hash), last);
      assert HeldMap(channels, hash) - {last} == HeldMap(rest, hash);
    }
  }

  lemma {:induction false} HeldBySame(order: seq<nat>, a: map<nat, Views>, b: map<nat, Views>, hash: PaymentHash)
    requires forall index :: index in order ==> index in a && index in b && a[index] == b[index]
    ensures HeldBy(order, a, hash) == HeldBy(order, b, hash)
  {
    if order != [] {
      HeldBySame(order[..|order| - 1], a, b, hash);
    }
  }

  /** A release is judged on what the channels hold, whatever order they are listed in. */
  lemma {:induction false} ReleasedIsHeld(invoice: Invoice, order: seq<nat>, channels: map<nat, Views>, timing: Timing)
    requires NoRepeats(order)
    requires channels.Keys == set index | index in order
    requires ReleaseFault(invoice, order, channels, timing).None?
    ensures Sum(HeldMap(channels, invoice.hash)) >= invoice.amount
    ensures forall index :: index in channels ==>
              && !OtherAlgorithm(channels[index], invoice)
              && !OfferedBeside(channels[index], invoice)
              && HeldAtLess(channels[index], invoice.hash)
                 == Min(Total(channels[index].remote.tlcs, HeldUnder(invoice.hash.bound, invoice.hash)),
                        Total(channels[index].local.tlcs, HeldUnder(invoice.hash.bound, invoice.hash)))
  {
    NoFaultAnywhere(order, channels, invoice);
    HeldByIsSum(order, channels, invoice.hash);
    forall index | index in channels
      ensures !OtherAlgorithm(channels[index], invoice) && !OfferedBeside(channels[index], invoice)
      ensures HeldAtLess(channels[index], invoice.hash)
              == Min(Total(channels[index].remote.tlcs, HeldUnder(invoice.hash.bound, invoice.hash)),
                     Total(channels[index].local.tlcs, HeldUnder(invoice.hash.bound, invoice.hash)))
    {
      var views := channels[index];
      ListedIsHeld(views.remote.tlcs, invoice.hash);
      ListedIsHeld(views.local.tlcs, invoice.hash);
    }
  }

  lemma {:induction false} FirstIsTimely(
    order: seq<nat>, channels: map<nat, Views>, hash: PaymentHash, timing: Timing, tlc: Tlc)
    requires forall index :: index in order ==> index in channels
    requires order != [] && TimingFault(order, channels, hash, timing).None?
             && tlc in ListedInBoth(channels[order[0]], hash)
    ensures order[0] in timing.margins
    ensures tlc.expirySeconds * MILLISECONDS_PER_SECOND > timing.nowMs + timing.margins[order[0]]
  {
    hide ListedInBoth;
    assert ListedInBoth(channels[order[0]], hash) != [];
  }

  /** Every held TLC of a released invoice expires after the margin its channel needs. */
  lemma {:induction false} ReleasedIsTimely(
    order: seq<nat>, channels: map<nat, Views>, hash: PaymentHash, timing: Timing, index: nat, tlc: Tlc)
    requires forall index :: index in order ==> index in channels
    requires TimingFault(order, channels, hash, timing).None?
    requires index in order && tlc in ListedInBoth(channels[index], hash)
    ensures index in timing.margins
    ensures tlc.expirySeconds * MILLISECONDS_PER_SECOND > timing.nowMs + timing.margins[index]
  {
    hide ListedInBoth;
    if index == order[0] {
      FirstIsTimely(order, channels, hash, timing, tlc);
    } else {
      ReleasedIsTimely(order[1..], channels, hash, timing, index, tlc);
    }
  }
}
