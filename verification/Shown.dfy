/** What views show and what they charged, over whole runs: every offered TLC is an approved payment's, a payment
    made is never made again, and every received TLC of a released invoice opens with its preimage. */
module Shown {
  import opened Sums
  import opened Payments
  import opened ChargeSearch
  import opened BalanceRule
  import opened BalanceFacts
  import opened HoldRelease
  import opened Engine
  import opened Runs
  import opened Released
  import opened Unmixed
  import opened Budgets

  // ---- Offered TLCs

  /** Every offered TLC of a positive amount any view shows is the payment its hash's intent names. */
  ghost predicate OfferedAuthorised(l: Ledger) {
    forall index, tlc :: index in l.accounts && Shows(l.accounts[index].views, tlc) ==> TlcAuthorised(l.intents, tlc)
  }

  ghost predicate TlcAuthorised(intents: map<Bound, Intent>, tlc: Tlc) {
    tlc.direction.Offered? && tlc.amount > 0 ==> tlc.bound in intents && IsTlcOf(tlc, intents[tlc.bound].hash)
  }

  lemma {:induction false} MemberAmount(tlcs: seq<Tlc>, tlc: Tlc, select: Tlc -> bool)
    requires tlc in tlcs && select(tlc)
    ensures Total(tlcs, select) >= tlc.amount
  {
    if tlc != tlcs[0] {
      MemberAmount(tlcs[1..], tlc, select);
    }
  }

  /** No intent changes its hash. */
  lemma {:induction false} IntentsKeepHashes(l: Ledger, move: Move, after: Ledger)
    requires Moves(l, move, after)
    ensures forall bound :: bound in l.intents ==>
            bound in after.intents && after.intents[bound].hash == l.intents[bound].hash
  {
    hide Judge, Reads, ReleaseFault, HashesOf, Charges;
  }

  lemma {:induction false} CommitAuthorises(
    l: Ledger, index: nat, view: View, next: Stated, context: Context, after: Ledger, tlc: Tlc)
    requires DrawsFiled(l) && Committed(l, index, view, next, context, after)
    requires tlc in next.tlcs
    ensures TlcAuthorised(l.intents, tlc)
  {
    if tlc.direction.Offered? && tlc.amount > 0 {
      var views := l.accounts[index].views;
      var judged := Judge(view, views, next, context).value;
      DrawsAreCovered(view, views, next, context, tlc.bound);
      MemberAmount(next.tlcs, tlc, OfferedUnder(tlc.bound));
      JudgedList(view, views, next, context);
      assert Drawn(judged, tlc.bound) >= tlc.amount;
      hide Judge, Drawn;
      assert Drawn(judged, tlc.bound) <= ChannelDraw(views, tlc.bound) ==> ChannelDraw(views, tlc.bound) > 0;
      assert tlc.bound in l.intents;
      IntentIsRead(l, index, next, context, tlc);
    }
  }

  lemma {:induction false} JudgedList(view: View, views: Views, next: Stated, context: Context)
    requires Judge(view, views, next, context).Accept?
    ensures Judge(view, views, next, context).value.tlcs == next.tlcs
    ensures forall tlc :: tlc in next.tlcs ==> !IsTwin(context, tlc)
  {
    hide ChargedNow, AnyOverdraws, BringsMix, AddsOtherAlgorithm;
  }

  lemma {:induction false} IntentIsRead(l: Ledger, index: nat, next: Stated, context: Context, tlc: Tlc)
    requires index in l.accounts && Reads(l, index, next, context)
    requires tlc in next.tlcs && tlc.bound in l.intents
    ensures tlc.bound in context.intents && context.intents[tlc.bound] == l.intents[tlc.bound]
  {
    var views := l.accounts[index].views;
    var shown := next.tlcs + views.remote.tlcs + views.local.tlcs;
    assert tlc in shown;
  }

  lemma {:induction false} MoveKeepsAuthorised(l: Ledger, move: Move, after: Ledger)
    requires DrawsFiled(l) && OfferedAuthorised(l) && Moves(l, move, after)
    ensures OfferedAuthorised(after)
  {
    hide Moves, Shows, DrawsFiled, Committed;
    IntentsKeepHashes(l, move, after);
    forall index, tlc | index in after.accounts && Shows(after.accounts[index].views, tlc)
      ensures TlcAuthorised(after.intents, tlc)
    {
      if move.Commits? && move.index == index {
        CommitMoves(l, move, after);
        CommitsWhatIsThere(l, move, after);
        CommitShows(l, index, move.view, move.next, move.context, after, tlc);
        if tlc in move.next.tlcs {
          CommitAuthorises(l, index, move.view, move.next, move.context, after, tlc);
        }
      } else {
        AccountsElsewhereStay(l, move, after, index);
        if index !in l.accounts {
          OpeningShowsNothing(move.funded, tlc);
          assert false;
        }
        assert index in l.accounts && Shows(l.accounts[index].views, tlc);
      }
      assert TlcAuthorised(l.intents, tlc);
    }
  }

  /** Over every run, whatever offered TLC any view shows is the very payment the user approved under its hash. */
  lemma {:induction false} OfferedIsAuthorised(events: seq<Event>)
    ensures OfferedAuthorised(LedgerOf(Run(events)))
  {
    if events != [] {
      var before := events[..|events| - 1];
      OfferedIsAuthorised(before);
      DrawsStayWithinBudgets(before);
      var move := StepMoves(Run(before), events[|events| - 1]);
      hide Step, Moves, OfferedAuthorised, DrawsFiled;
      MoveKeepsAuthorised(LedgerOf(Run(before)), move, LedgerOf(Run(events)));
    }
  }

  // ---- Charges

  /** A payment made: some view was charged under the hash, whose intent is closed. */
  ghost predicate PaidUnder(l: Ledger, index: nat, view: View, bound: Bound) {
    && index in l.accounts && Get(l.accounts[index].views.Of(view).charged, bound) > 0
    && bound in l.intents && !l.intents[bound].open && index in l.intents[bound].channels
  }

  lemma {:induction false} ChargesOnlyGrow(view: View, views: Views, next: Stated, context: Context, bound: Bound)
    requires Judge(view, views, next, context).Accept?
    ensures Get(Judge(view, views, next, context).value.charged, bound) >= Get(views.Of(view).charged, bound)
  {
    var before := views.Of(view);
    var left := Difference(before.tlcs, multiset(next.tlcs));
    ChargesCoverShortfall(left, Shortfall(before, next, context), Departed(before, next, context).uncredited);
    ChargesUnder(before.charged, ChargedNow(before, next, context).value, bound);
    hide ChargedNow, AnyOverdraws, BringsMix, AddsOtherAlgorithm, OffersTwins;
  }

  lemma {:induction false} CommitKeepsCharges(
    l: Ledger, index: nat, view: View, next: Stated, context: Context, after: Ledger, at: View, bound: Bound)
    requires Committed(l, index, view, next, context, after)
    ensures Get(after.accounts[index].views.Of(at).charged, bound) >= Get(l.accounts[index].views.Of(at).charged, bound)
  {
    ChargesOnlyGrow(view, l.accounts[index].views, next, context, bound);
    hide Judge, Reads, FiledIntents, FiledInvoices;
  }

  lemma {:induction false} MoveKeepsCharges(l: Ledger, move: Move, after: Ledger, index: nat, view: View, bound: Bound)
    requires Moves(l, move, after) && index in l.accounts
    ensures index in after.accounts
    ensures Get(after.accounts[index].views.Of(view).charged, bound)
            >= Get(l.accounts[index].views.Of(view).charged, bound)
  {
    hide Moves, Committed;
    ChannelsStay(l, move, after, index);
    if move.Commits? && move.index == index {
      CommitMoves(l, move, after);
      CommitKeepsCharges(l, index, move.view, move.next, move.context, after, view, bound);
    } else {
      AccountsElsewhereStay(l, move, after, index);
    }
  }

  /** An intent a listed channel was charged under is not opened again. */
  lemma {:induction false} ChargedStaysShut(l: Ledger, move: Move, after: Ledger, index: nat, view: View, bound: Bound)
    requires PaidUnder(l, index, view, bound) && Moves(l, move, after)
    ensures bound in after.intents && !after.intents[bound].open
    ensures index in after.intents[bound].channels && after.intents[bound].maximum == l.intents[bound].maximum
  {
    hide Judge, Reads, ReleaseFault, HashesOf;
    assert Charges(l.accounts[index].views, bound);
  }

  lemma {:induction false} MoveKeepsPaid(l: Ledger, move: Move, after: Ledger, index: nat, view: View, bound: Bound)
    requires PaidUnder(l, index, view, bound) && Moves(l, move, after)
    ensures PaidUnder(after, index, view, bound)
  {
    hide Moves;
    MoveKeepsCharges(l, move, after, index, view, bound);
    ChargedStaysShut(l, move, after, index, view, bound);
  }

  lemma {:induction false} NewDrawsNothing(l: Ledger, move: Move, after: Ledger, index: nat, bound: Bound)
    requires Moves(l, move, after) && index in after.accounts && index !in l.accounts
    ensures ChannelDraw(after.accounts[index].views, bound) == 0
  {
    hide Moves, Committed, ChannelDraw;
    if move.Commits? {
      CommitMoves(l, move, after);
      CommitsWhatIsThere(l, move, after);
    }
    DrawsStay(l, move, after, index, bound);
  }

  lemma {:induction false} CommitsWhatIsThere(l: Ledger, move: Move, after: Ledger)
    requires Moves(l, move, after) && move.Commits?
    ensures move.index in l.accounts
  {
    hide Judge, Reads;
  }

  /** What a channel draws under a hash, nothing before it is registered. */
  ghost function DrawAt(l: Ledger, index: nat, bound: Bound): nat {
    if index in l.accounts then ChannelDraw(l.accounts[index].views, bound) else 0
  }

  /** Once a payment was charged and its intent closed, its hash is closed for good
      and no channel ever draws more under it: no later run pays it again. */
  lemma {:induction false} PaidOnceIsPaid(events: seq<Event>, more: seq<Event>, index: nat, view: View, bound: Bound)
    requires PaidUnder(LedgerOf(Run(events)), index, view, bound)
    ensures PaidUnder(LedgerOf(Run(events + more)), index, view, bound)
    ensures forall other: nat ::
              DrawAt(LedgerOf(Run(events + more)), other, bound) <= DrawAt(LedgerOf(Run(events)), other, bound)
  {
    if more == [] {
      assert events + more == events;
    } else {
      var before, last := more[..|more| - 1], more[|more| - 1];
      assert events + more == (events + before) + [last];
      assert ((events + before) + [last])[..|events + before|] == events + before;
      PaidOnceIsPaid(events, before, index, view, bound);
      var l, after := LedgerOf(Run(events + before)), LedgerOf(Run(events + more));
      var move := StepMoves(Run(events + before), last);
      hide Step, Moves, Run;
      MoveKeepsPaid(l, move, after, index, view, bound);
      forall other: nat
        ensures DrawAt(after, other, bound) <= DrawAt(l, other, bound)
      {
        ShutDrawFalls(l, move, after, other, bound);
      }
    }
  }

  lemma {:induction false} ShutDrawFalls(l: Ledger, move: Move, after: Ledger, index: nat, bound: Bound)
    requires Moves(l, move, after) && bound in l.intents && !l.intents[bound].open
    ensures DrawAt(after, index, bound) <= DrawAt(l, index, bound)
  {
    hide Moves, ChannelDraw;
    if index in l.accounts {
      ChannelsStay(l, move, after, index);
      ClosedMoveFalls(l, move, after, index, bound);
    } else if index in after.accounts {
      NewDrawsNothing(l, move, after, index, bound);
    }
  }

  // ---- What a released preimage opens

  /** Every received TLC of a released invoice any view shows is locked with the invoice's algorithm. */
  ghost predicate HeldOpens(l: Ledger) {
    forall index, tlc :: index in l.accounts && Shows(l.accounts[index].views, tlc) ==> TlcOpens(RecordsOf(l), tlc)
  }

  ghost predicate TlcOpens(context: Context, tlc: Tlc) {
    IsReleasedHeld(context, tlc) ==> tlc.algorithm == InvoiceOf(context, tlc).value.algorithm
  }

  lemma {:induction false} AddedIsNew(from: seq<Tlc>, remove: seq<Tlc>, tlc: Tlc)
    requires tlc in from && tlc !in remove
    ensures tlc in Difference(from, multiset(remove))
  {
    DifferenceIsMultisetDifference(from, multiset(remove));
    assert tlc in multiset(Difference(from, multiset(remove)));
  }

  lemma {:induction false} CommitOpens(
    l: Ledger, index: nat, view: View, next: Stated, context: Context, after: Ledger, tlc: Tlc)
    requires Committed(l, index, view, next, context, after)
    requires tlc in next.tlcs && tlc !in l.accounts[index].views.Of(view).tlcs
    ensures TlcOpens(context, tlc)
  {
    AddedIsNew(next.tlcs, l.accounts[index].views.Of(view).tlcs, tlc);
    hide Reads, ChargedNow, AnyOverdraws, BringsMix, OffersTwins, FiledIntents, FiledInvoices, Difference;
  }

  lemma {:induction false} ReadsOpens(l: Ledger, index: nat, next: Stated, context: Context, tlc: Tlc)
    requires index in l.accounts && Reads(l, index, next, context)
    requires tlc in next.tlcs || Shows(l.accounts[index].views, tlc)
    ensures TlcOpens(context, tlc) <==> TlcOpens(RecordsOf(l), tlc)
  {
    var views := l.accounts[index].views;
    var shown := next.tlcs + views.remote.tlcs + views.local.tlcs;
    assert tlc in shown;
    assert tlc.bound in HashesOf(shown);
    hide HashesOf, ListedOn;
  }

  /** Only a release of its own invoice can keep a TLC that opened from opening. */
  lemma {:induction false} RecordsOpenAlike(l: Ledger, move: Move, after: Ledger, tlc: Tlc)
    requires Moves(l, move, after) && TlcOpens(RecordsOf(l), tlc)
    requires !(move.Pays? && move.hash.bound == tlc.bound && IsTlcOf(tlc, move.hash))
    ensures TlcOpens(RecordsOf(after), tlc)
  {
    hide Judge, Reads, ReleaseFault, HashesOf, FiledIntents;
  }

  lemma {:induction false} ReleaseOpens(
    l: Ledger, hash: PaymentHash, timing: Timing, after: Ledger, index: nat, tlc: Tlc)
    requires WellKept(l) && ShownFiled(l) && Paid(l, hash, timing, after) && index in l.accounts
    requires Shows(l.accounts[index].views, tlc) && tlc.bound == hash.bound && IsTlcOf(tlc, hash)
    ensures TlcOpens(RecordsOf(after), tlc)
  {
    var invoice := l.invoices[hash.bound];
    var channels := ListedViews(l, invoice.channels);
    ReleasedIsHeld(invoice, invoice.channels, channels, timing);
    ShownIsListed(l.accounts[index].views, hash, tlc);
    hide ReleaseFault, HeldAtLess, OfferedBeside, ListedInBoth, Shows;
    assert index in invoice.channels;
    assert !OtherAlgorithm(channels[index], invoice);
  }

  lemma {:induction false} MoveKeepsOpens(l: Ledger, move: Move, after: Ledger)
    requires WellKept(l) && ShownFiled(l) && HeldOpens(l) && Moves(l, move, after)
    ensures HeldOpens(after)
  {
    hide Moves, Shows, TlcOpens, RecordsOf, WellKept, ShownFiled, Committed, Paid;
    forall index, tlc | index in after.accounts && Shows(after.accounts[index].views, tlc)
      ensures TlcOpens(RecordsOf(after), tlc)
    {
      if move.Commits? && move.index == index {
        CommitMoves(l, move, after);
        ShownOpens(l, index, move.view, move.next, move.context, after, tlc);
        RecordsOpenAlike(l, move, after, tlc);
      } else {
        AccountsElsewhereStay(l, move, after, index);
        if index !in l.accounts {
          OpeningShowsNothing(move.funded, tlc);
        } else if move.Pays? && move.hash.bound == tlc.bound && IsTlcOf(tlc, move.hash) {
          PayMoves(l, move, after);
          ReleaseOpens(l, move.hash, move.timing, after, index, tlc);
        } else {
          RecordsOpenAlike(l, move, after, tlc);
        }
      }
    }
  }

  lemma {:induction false} PayMoves(l: Ledger, move: Move, after: Ledger)
    requires Moves(l, move, after) && move.Pays?
    ensures Paid(l, move.hash, move.timing, after)
  {
    hide Paid;
  }

  lemma {:induction false} ShownOpens(
    l: Ledger, index: nat, view: View, next: Stated, context: Context, after: Ledger, tlc: Tlc)
    requires HeldOpens(l) && Committed(l, index, view, next, context, after)
    requires Shows(after.accounts[index].views, tlc)
    ensures TlcOpens(RecordsOf(l), tlc)
  {
    CommitShows(l, index, view, next, context, after, tlc);
    if !Shows(l.accounts[index].views, tlc) {
      CommitOpens(l, index, view, next, context, after, tlc);
      hide Judge;
      ReadsOpens(l, index, next, context, tlc);
    }
  }

  /** In a run where each invoice is recorded before a view shows its hash, its preimage
      opens every received TLC of it that any view shows once it is released. */
  lemma {:induction false} ReleasedHeldOpens(events: seq<Event>)
    requires Timely(events)
    ensures HeldOpens(LedgerOf(Run(events)))
  {
    if events != [] {
      var before := events[..|events| - 1];
      ReleasedHeldOpens(before);
      TimelyRunsStayOrderly(before);
      var move := StepMoves(Run(before), events[|events| - 1]);
      hide Step, Moves, WellKept, ShownFiled, HeldOpens, CreditFiled, Unmixed.Unmixed, CreditCapped;
      MoveKeepsOpens(LedgerOf(Run(before)), move, LedgerOf(Run(events)));
    }
  }
}
