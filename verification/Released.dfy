/** Released invoices: once a preimage is out, every reachable state
    still holds or was credited the invoice's amount. */
module Released {
  import opened Sums
  import opened Payments
  import opened BalanceRule
  import opened BalanceFacts
  import opened HoldRelease
  import opened Engine
  import opened Runs

  /** What a view was credited to an invoice and the invoice's TLCs it still lists. */
  ghost function Covers(s: Snapshot, bound: Bound, hash: PaymentHash): nat {
    Get(s.credited, bound) + Total(s.tlcs, HeldUnder(bound, hash))
  }

  ghost function CoversAtLess(views: Views, bound: Bound, hash: PaymentHash): nat {
    Min(Covers(views.remote, bound, hash), Covers(views.local, bound, hash))
  }

  ghost function CoverMap(l: Ledger, bound: Bound, hash: PaymentHash): map<nat, nat> {
    map index | index in l.accounts :: CoversAtLess(l.accounts[index].views, bound, hash)
  }

  // ---- The payment records keep their keys, and list each channel once

  ghost predicate WellKept(l: Ledger) {
    && (forall bound :: bound in l.intents ==> bound !in l.invoices)
    && forall bound :: bound in l.invoices ==>
         && l.invoices[bound].hash.bound == bound
         && NoRepeats(l.invoices[bound].channels)
         && forall index :: index in l.invoices[bound].channels ==> index in l.accounts
  }

  lemma {:induction false} WithChannelKeeps(listed: seq<nat>, index: nat)
    requires NoRepeats(listed)
    ensures NoRepeats(WithChannel(listed, index))
    ensures forall other :: other in WithChannel(listed, index) <==> other in listed || other == index
  {
    assert (listed + [index])[..|listed|] == listed;
  }

  lemma {:induction false} FilingKeepsKept(l: Ledger, hashes: set<Bound>, index: nat, after: Ledger)
    requires WellKept(l) && index in l.accounts
    requires after.accounts.Keys == l.accounts.Keys
    requires after.intents == FiledIntents(l.intents, hashes, index)
    requires after.invoices == FiledInvoices(l.invoices, hashes, index)
    ensures WellKept(after)
  {
    forall bound | bound in l.invoices {
      WithChannelKeeps(l.invoices[bound].channels, index);
    }
  }

  lemma {:induction false} MoveKeepsKept(l: Ledger, move: Move, after: Ledger)
    requires WellKept(l) && Moves(l, move, after)
    ensures WellKept(after)
  {
    hide Judge, Reads, ReleaseFault, HashesOf;
    match move {
      case Files(hashes, index) => FilingKeepsKept(l, hashes, index, after);
      case Commits(index, _, next, _) => FilingKeepsKept(l, HashesOf(next.tlcs), index, after);
      case _ =>
    }
  }

  // ---- A release, and what every later step keeps of it

  ghost predicate Covered(l: Ledger) {
    forall bound :: bound in l.invoices && l.invoices[bound].released ==>
      Sum<nat>(CoverMap(l, bound, l.invoices[bound].hash)) >= l.invoices[bound].amount
  }

  lemma {:induction false} ReleaseIsCovered(l: Ledger, hash: PaymentHash, timing: Timing, after: Ledger)
    requires WellKept(l) && Paid(l, hash, timing, after)
    ensures Sum<nat>(CoverMap(l, hash.bound, hash)) >= l.invoices[hash.bound].amount
  {
    var invoice := l.invoices[hash.bound];
    var channels := ListedViews(l, invoice.channels);
    ReleasedIsHeld(invoice, invoice.channels, channels, timing);
    hide ReleaseFault, HeldAtLess, OtherAlgorithm, OfferedBeside;
    Monotone<nat>(HeldMap(channels, hash), CoverMap(l, hash.bound, hash));
  }

  /** The invoice a commitment reads under a released hash is the
      ledger's, or the commitment involves no TLC under it. */
  lemma {:induction false} ReadsReleased(l: Ledger, index: nat, next: Stated, context: Context, bound: Bound)
    requires index in l.accounts && Reads(l, index, next, context)
    requires bound in l.invoices
    ensures bound in context.invoices ==> context.invoices[bound] == l.invoices[bound]
    ensures bound !in context.invoices ==>
              && NoneUnder(next.tlcs, bound)
              && forall view: View :: NoneUnder(l.accounts[index].views.Of(view).tlcs, bound)
  {
    var views := l.accounts[index].views;
    var shown := next.tlcs + views.remote.tlcs + views.local.tlcs;
    if bound !in context.invoices {
      assert forall tlc :: tlc in shown ==> tlc.bound in HashesOf(shown);
      assert forall tlc :: tlc in next.tlcs || tlc in views.remote.tlcs || tlc in views.local.tlcs ==> tlc in shown;
    }
  }

  predicate NoneUnder(tlcs: seq<Tlc>, bound: Bound) {
    forall tlc :: tlc in tlcs ==> tlc.bound != bound
  }

  lemma {:induction false} NoneHeldUnder(tlcs: seq<Tlc>, bound: Bound, hash: PaymentHash)
    requires NoneUnder(tlcs, bound)
    ensures Total(tlcs, HeldUnder(bound, hash)) == 0
  {
    if tlcs != [] {
      NoneHeldUnder(tlcs[1..], bound, hash);
    }
  }

  /** What a commitment leaves a released invoice in its view: no less than before, or credited until surely paid. */
  lemma {:induction false} CommitCovers(
    view: View, views: Views, next: Stated, context: Context, bound: Bound, invoice: Invoice)
    requires Judge(view, views, next, context).Accept?
    requires invoice.released
    requires bound in context.invoices ==> context.invoices[bound] == invoice
    requires bound !in context.invoices ==> NoneUnder(next.tlcs, bound) && NoneUnder(views.Of(view).tlcs, bound)
    ensures var after := Judge(view, views, next, context).value;
            || Covers(after, bound, invoice.hash) >= Covers(views.Of(view), bound, invoice.hash)
            || CreditedAcross(after.credited, context, bound) >= invoice.amount
  {
    var before := views.Of(view);
    if bound in context.invoices {
      assert Owes(context, bound);
      ReleasedStaysCovered(view, views, next, context, bound);
      hide Judge;
    } else {
      CreditsCover(Difference(before.tlcs, multiset(next.tlcs)), context, before.credited, bound);
      NoneHeldUnder(before.tlcs, bound, invoice.hash);
      hide ChargedNow, AnyOverdraws, BringsMix, AddsOtherAlgorithm, OffersTwins;
    }
  }

  lemma {:induction false} SureCreditsAreCovered(
    l: Ledger, index: nat, next: Stated, context: Context, bound: Bound, hash: PaymentHash)
    requires index in l.accounts && Reads(l, index, next, context)
    ensures Sum<nat>(SureCredits(context, bound)) <= Sum<nat>(CoverMap(l, bound, hash) - {index})
  {
    hide HashesOf, ListedOn, IntentsUnder, InvoicesUnder, Total;
    Monotone<nat>(SureCredits(context, bound), CoverMap(l, bound, hash) - {index});
  }

  lemma {:induction false} MovedCover(
    l: Ledger, index: nat, view: View, judged: Snapshot, after: Ledger, bound: Bound, hash: PaymentHash, sure: int,
    amount: nat)
    requires index in l.accounts
    requires after.accounts == l.accounts[index := l.accounts[index].(views := l.accounts[index].views.With(view,
             judged))]
    requires Sum<nat>(CoverMap(l, bound, hash)) >= amount
    requires sure <= Sum<nat>(CoverMap(l, bound, hash) - {index})
    requires Covers(judged, bound, hash) >= Covers(l.accounts[index].views.Of(view), bound, hash)
             || Get(judged.credited, bound) + sure >= amount
    ensures Sum<nat>(CoverMap(after, bound, hash)) >= amount
  {
    var covers := CoverMap(l, bound, hash);
    var now := CoversAtLess(after.accounts[index].views, bound, hash);
    CoverBounds(judged, bound, hash);
    CoverOfViews(l.accounts[index].views, view, judged, bound, hash);
    CoverMapMoves(l, index, after, bound, hash);
    hide Covers, CoversAtLess;
    assert covers[index] == CoversAtLess(l.accounts[index].views, bound, hash);
    hide CoverMap;
    Replace<nat>(covers, index, now);
  }

  lemma {:induction false} CoverMapMoves(l: Ledger, index: nat, after: Ledger, bound: Bound, hash: PaymentHash)
    requires index in l.accounts && index in after.accounts
    requires after.accounts == l.accounts[index := after.accounts[index]]
    ensures CoverMap(after, bound, hash)
            == CoverMap(l, bound, hash)[index := CoversAtLess(after.accounts[index].views, bound, hash)]
  {
    hide CoversAtLess;
  }

  lemma {:induction false} CommitKeepsCover(
    l: Ledger, index: nat, view: View, next: Stated, context: Context, after: Ledger, bound: Bound)
    requires Committed(l, index, view, next, context, after)
    requires bound in l.invoices && l.invoices[bound].released
    requires Sum<nat>(CoverMap(l, bound, l.invoices[bound].hash)) >= l.invoices[bound].amount
    ensures Sum<nat>(CoverMap(after, bound, l.invoices[bound].hash)) >= l.invoices[bound].amount
  {
    var invoice, views := l.invoices[bound], l.accounts[index].views;
    ReadsReleased(l, index, next, context, bound);
    CommitCovers(view, views, next, context, bound, invoice);
    SureCreditsAreCovered(l, index, next, context, bound, invoice.hash);
    var judged := Judge(view, views, next, context).value;
    hide Judge, Reads, Covers, CoverMap, SureCredits;
    MovedCover(l, index, view, judged, after, bound, invoice.hash, Sum<nat>(SureCredits(context, bound)),
      invoice.amount);
  }

  lemma {:induction false} CoverBounds(s: Snapshot, bound: Bound, hash: PaymentHash)
    ensures Covers(s, bound, hash) >= Get(s.credited, bound)
  {
  }

  lemma {:induction false} CoverOfViews(views: Views, view: View, s: Snapshot, bound: Bound, hash: PaymentHash)
    ensures CoversAtLess(views.With(view, s), bound, hash)
            == Min(Covers(s, bound, hash), Covers(views.Of(Other(view)), bound, hash))
    ensures CoversAtLess(views, bound, hash)
            == Min(Covers(views.Of(view), bound, hash), Covers(views.Of(Other(view)), bound, hash))
  {
  }

  /** A move changes nothing of an invoice but its release and the channels it lists. */
  lemma {:induction false} InvoicesStay(l: Ledger, move: Move, after: Ledger, bound: Bound)
    requires Moves(l, move, after) && bound in after.invoices
    ensures bound in l.invoices ==>
              && after.invoices[bound].hash == l.invoices[bound].hash
                && after.invoices[bound].amount == l.invoices[bound].amount
              && (l.invoices[bound].released ==> after.invoices[bound].released)
              && (after.invoices[bound].released != l.invoices[bound].released ==>
                move.Pays? && move.hash.bound == bound)
    ensures bound !in l.invoices ==> move.Invoices? && move.hash.bound == bound && !after.invoices[bound].released
  {
    hide Judge, Reads, ReleaseFault, HashesOf;
  }

  lemma {:induction false} OpeningCovers(
    l: Ledger, index: nat, funded: nat, after: Ledger, bound: Bound, hash: PaymentHash)
    requires Opened(l, index, funded, after)
    ensures Sum<nat>(CoverMap(after, bound, hash)) >= Sum<nat>(CoverMap(l, bound, hash))
  {
    Monotone<nat>(CoverMap(l, bound, hash), CoverMap(after, bound, hash));
  }

  lemma {:induction false} MoveKeepsCovered(l: Ledger, move: Move, after: Ledger)
    requires WellKept(l) && Covered(l) && Moves(l, move, after)
    ensures Covered(after)
  {
    hide CoverMap, Judge, Reads, ReleaseFault, HashesOf, FiledIntents, FiledInvoices;
    forall bound | bound in after.invoices && after.invoices[bound].released
      ensures Sum<nat>(CoverMap(after, bound, after.invoices[bound].hash)) >= after.invoices[bound].amount
    {
      InvoicesStay(l, move, after, bound);
      var hash := l.invoices[bound].hash;
      if move.Pays? && move.hash.bound == bound {
        ReleaseIsCovered(l, move.hash, move.timing, after);
        SameAccounts(l, after, bound, hash);
      } else if move.Commits? {
        CommitKeepsCover(l, move.index, move.view, move.next, move.context, after, bound);
      } else if move.Opens? {
        OpeningCovers(l, move.index, move.funded, after, bound, hash);
      } else {
        SameAccounts(l, after, bound, hash);
      }
    }
  }

  lemma {:induction false} SameAccounts(l: Ledger, after: Ledger, bound: Bound, hash: PaymentHash)
    requires after.accounts == l.accounts
    ensures CoverMap(after, bound, hash) == CoverMap(l, bound, hash)
  {
  }

  lemma {:induction false} RunsStayCovered(events: seq<Event>)
    ensures WellKept(LedgerOf(Run(events))) && Covered(LedgerOf(Run(events)))
  {
    if events != [] {
      var before := events[..|events| - 1];
      RunsStayCovered(before);
      var move := StepMoves(Run(before), events[|events| - 1]);
      hide Step, Moves, WellKept, Covered;
      MoveKeepsKept(LedgerOf(Run(before)), move, LedgerOf(Run(events)));
      MoveKeepsCovered(LedgerOf(Run(before)), move, LedgerOf(Run(events)));
    }
  }

  ghost function CoversAt(l: Ledger, choice: nat -> View, bound: Bound, hash: PaymentHash): map<nat, nat> {
    map index | index in l.accounts :: Covers(l.accounts[index].views.Of(choice(index)), bound, hash)
  }

  /** After an invoice's release, in every later state and whichever view of each channel is broadcast, what
      those views were credited to the invoice and the TLCs of it they still list add up to its amount. */
  lemma {:induction false} ReleasedIsPaidOrHeld(events: seq<Event>, choice: nat -> View, bound: Bound)
    requires bound in Run(events).invoices && Run(events).invoices[bound].released
    ensures var invoice := Run(events).invoices[bound];
            Sum<nat>(CoversAt(LedgerOf(Run(events)), choice, bound, invoice.hash)) >= invoice.amount
  {
    RunsStayCovered(events);
    var l, invoice := LedgerOf(Run(events)), Run(events).invoices[bound];
    hide Run, WellKept, Covers;
    Monotone<nat>(CoverMap(l, bound, invoice.hash), CoversAt(l, choice, bound, invoice.hash));
  }

  /** A released invoice stays released, with its hash and amount. */
  lemma {:induction false} ReleaseIsForGood(events: seq<Event>, more: seq<Event>, bound: Bound)
    requires bound in Run(events).invoices && Run(events).invoices[bound].released
    ensures bound in Run(events + more).invoices
    ensures Run(events + more).invoices[bound].released
    ensures Run(events + more).invoices[bound].amount == Run(events).invoices[bound].amount
    ensures Run(events + more).invoices[bound].hash == Run(events).invoices[bound].hash
  {
    if more == [] {
      assert events + more == events;
    } else {
      var before, last := more[..|more| - 1], more[|more| - 1];
      assert events + more == (events + before) + [last];
      assert ((events + before) + [last])[..|events + before|] == events + before;
      ReleaseIsForGood(events, before, bound);
      var move := StepMoves(Run(events + before), last);
      hide Step;
      InvoicesOnlyGrow(LedgerOf(Run(events + before)), move, LedgerOf(Run(events + more)), bound);
      InvoicesStay(LedgerOf(Run(events + before)), move, LedgerOf(Run(events + more)), bound);
    }
  }

  lemma {:induction false} InvoicesOnlyGrow(l: Ledger, move: Move, after: Ledger, bound: Bound)
    requires Moves(l, move, after) && bound in l.invoices
    ensures bound in after.invoices
    ensures forall index :: index in l.invoices[bound].channels ==> index in after.invoices[bound].channels
  {
    hide Judge, Reads, ReleaseFault, HashesOf;
  }
}
